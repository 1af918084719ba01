/** A flush, a restart, and the learning that goes on: what Persist wrote is what the same
    instance loads, and nothing learned afterwards can tell the difference. */
module CatalogRestart {
  import opened Common
  import opened Stats
  import opened Patterns
  import opened CatalogTables
  import opened CatalogQueries
  import opened CatalogCuration
  import opened Spike
  import opened LearnSpec
  import opened LearnRuns

  /** Two patterns agree on everything learned; the curated columns are the root's. */
  predicate SameLearning(a: Pattern, b: Pattern)
  {
    && a.template == b.template && a.count == b.count && a.source == b.source && a.ruleName == b.ruleName
    && a.baselineFrequency == b.baselineFrequency && a.baselineVariance == b.baselineVariance
        && a.baselineAvg == b.baselineAvg
    && a.seasonal == b.seasonal && a.spikeBaselineMode == b.spikeBaselineMode && a.samples == b.samples
  }

  /** Right after a Persist the same instance loads every pattern it carried, whatever its
      root's tombstone, with exactly the learned fields it wrote; the verdict is the
      root's, "known" for a tombstone, and the rest comes from the root as well. */
  lemma PersistThenLoad(t: Tables, w: Writer, ps: map<Id, Pattern>, ss: map<string, ServiceInfo>, now: int, id: Id)
    requires ValidScope(w.scope) && id in ps
    ensures var u := PersistTables(t, w, ps, ss, now);
      var loaded := LoadRow(u, w.scope, w.instance, id);
      var root := RootAfterUpsert(t, w.scope, id, ps[id].service);
      && loaded.Some? && SameLearning(loaded.value, ps[id]) && loaded.value.lastSeen == TimeOrNow(ps[id].lastSeen, now)
      && loaded.value.orgId == w.scope[0] && loaded.value.service == root.service && loaded.value.tags == root.tags
      && loaded.value.verdict == if root.deleted then KNOWN else root.verdict
  {
    PersistedRoot(t, w, ps, ss, now, id);
    PersistedLog(t, w, ps, ss, now, id, w.instance);
    LoadedAsWritten(PersistTables(t, w, ps, ss, now), w, id, RootAfterUpsert(t, w.scope, id, ps[id].service),
                    LogAt(t, (w.scope[0], id, w.instance)), ps[id], now);
  }

  lemma LoadedAsWritten(u: Tables, w: Writer, id: Id, root: Root, prior: Option<LogRow>, p: Pattern, now: int)
    requires ValidScope(w.scope) && ChosenRoot(u, w.scope, id) == Some((w.scope[0], root)) && !root.resetShadow
    requires RankedLog(u, w.scope, id, w.instance) == Some((w.scope[0], LogAfterUpsert(prior, p, now)))
    ensures var loaded := LoadRow(u, w.scope, w.instance, id);
      && loaded.Some? && SameLearning(loaded.value, p) && loaded.value.lastSeen == TimeOrNow(p.lastSeen, now)
      && loaded.value.orgId == w.scope[0] && loaded.value.service == root.service && loaded.value.tags == root.tags
      && loaded.value.verdict == if root.deleted then KNOWN else root.verdict
  {
    LoadedFrom(u, w.scope, w.instance, id, w.scope[0], root, LogAfterUpsert(prior, p, now));
  }

  /** A row under a root of its own org, not a shadow, is loaded as it stands. */
  lemma LoadedFrom(t: Tables, scope: seq<Org>, inst: int, id: Id, o: Org, root: Root, row: LogRow)
    requires ChosenRoot(t, scope, id) == Some((o, root)) && RankedLog(t, scope, id, inst) == Some((o, row))
        && !root.resetShadow
    ensures LoadRow(t, scope, inst, id) ==
      Some(Pattern(id, o, row.template, row.firstSeen, row.lastSeen, row.count, row.baselineFrequency,
                   row.baselineVariance, row.baselineAvg, row.seasonal, row.spikeBaselineMode,
                   if root.deleted then KNOWN else root.verdict, row.ruleName, row.source,
                   root.service, root.tags, row.samples))
  {
  }

  /** A Persist leaves what an instance would load of any other id alone. */
  lemma PersistKeepsOtherLoads(t: Tables, w: Writer, ps: map<Id, Pattern>, ss: map<string, ServiceInfo>, now: int,
                               id: Id, inst: int)
    requires ValidScope(w.scope) && id !in ps
    ensures LoadRow(PersistTables(t, w, ps, ss, now), w.scope, inst, id) == LoadRow(t, w.scope, inst, id)
  {
    PersistedRoot(t, w, ps, ss, now, id);
    PersistedLog(t, w, ps, ss, now, id, inst);
  }

  // ---- learning cannot tell -----------------------------------------------------------------

  predicate Same(p: Pattern, q: Pattern) { SameLearning(p, q) && p.verdict == q.verdict }

  lemma GlobalSame(f: BaselineFold, p: Pattern, q: Pattern, value: real, alpha: real, prevCount: int,
                   sqrt: real -> real)
    requires Same(p, q)
    ensures Same(GlobalFold(f, p, value, alpha, prevCount, sqrt), GlobalFold(f, q, value, alpha, prevCount, sqrt))
  {
  }

  lemma SeasonalSame(f: BaselineFold, p: Pattern, q: Pattern, value: real, alpha: real, now: int, sqrt: real -> real)
    requires Same(p, q) && f.seasonalPeriod > 0
    ensures Same(SeasonalFold(f, p, value, alpha, now, sqrt), SeasonalFold(f, q, value, alpha, now, sqrt))
  {
  }

  lemma LegacySame(p: Pattern, q: Pattern, tickCount: int, alpha: real)
    requires Same(p, q)
    ensures Same(LegacyFold(p, tickCount, alpha), LegacyFold(q, tickCount, alpha))
  {
  }

  /** Folding reads nothing but the learned fields. */
  lemma FoldSame(f: BaselineFold, p: Pattern, q: Pattern, tickCount: int, alpha: real, now: int, prevCount: int,
                 sqrt: real -> real)
    requires Same(p, q)
    ensures Same(Folded(f, p, tickCount, alpha, now, prevCount, sqrt),
        Folded(f, q, tickCount, alpha, now, prevCount, sqrt))
  {
    if Legacy(f) {
      LegacySame(p, q, tickCount, alpha);
    } else {
      var value := Rate(tickCount, f.pollSeconds);
      GlobalSame(f, p, q, value, alpha, prevCount, sqrt);
      if f.seasonalPeriod > 0 {
        SeasonalSame(f, GlobalFold(f, p, value, alpha, prevCount, sqrt),
          GlobalFold(f, q, value, alpha, prevCount, sqrt), value, alpha, now, sqrt);
      }
    }
  }

  /** Two working sets agree on an id: neither has it, or both with the same learning. */
  ghost predicate SameAt(a: map<string, Pattern>, b: map<string, Pattern>, k: string)
  {
    (k in a <==> k in b) && (k in a ==> Same(a[k], b[k]))
  }

  lemma UpsertSame(f: BaselineFold, a: map<string, Pattern>, b: map<string, Pattern>, o: Observation, source: string,
                   alpha: real, now: int, sqrt: real -> real)
    requires SameAt(a, b, o.key)
    ensures Same(Upserted(f, a, o, source, alpha, now, sqrt), Upserted(f, b, o, source, alpha, now, sqrt))
  {
    if o.key in a {
      UpsertedOld(f, a, o, source, alpha, now, sqrt);
      UpsertedOld(f, b, o, source, alpha, now, sqrt);
      CountSame(a[o.key], b[o.key], o, now);
      FoldSame(f, Counted(a[o.key], o, now), Counted(b[o.key], o, now), o.frequency,
               if alpha <= 0.0 then 0.2 else alpha, now, a[o.key].count, sqrt);
    }
  }

  lemma UpsertedOld(f: BaselineFold, ps: map<string, Pattern>, o: Observation, source: string, alpha: real, now: int,
                    sqrt: real -> real)
    requires o.key in ps
    ensures Upserted(f, ps, o, source, alpha, now, sqrt)
            == Folded(f, Counted(ps[o.key], o, now), o.frequency,
                      if alpha <= 0.0 then 0.2 else alpha, now, ps[o.key].count, sqrt)
  {
  }

  /** A stored pattern refreshed and counted, as it is handed to the fold. */
  function Counted(p: Pattern, o: Observation, now: int): Pattern
  {
    Stamped(Refreshed(p, o.ruleName, o.service), o, now)
  }

  lemma CountSame(p: Pattern, q: Pattern, o: Observation, now: int)
    requires Same(p, q)
    ensures Same(Counted(p, o, now), Counted(q, o, now))
  {
  }

  lemma PromoteSame(cfg: LearnConfig, a: map<string, Pattern>, b: map<string, Pattern>, key: string, x: Pattern,
                    y: Pattern)
    requires Same(x, y)
    ensures SameAt(PromotedPatterns(cfg, a[key := x], key), PromotedPatterns(cfg, b[key := y], key), key)
  {
  }

  /** An event for another pattern touches nothing here. */
  lemma StepElsewhere(cfg: LearnConfig, a: map<string, Pattern>, e: Event, k: string)
    requires e.o.key != k
    ensures k in LearnStep(cfg, a, e) <==> k in a
    ensures k in a ==> LearnStep(cfg, a, e)[k] == a[k]
  {
    LearnStepCounts(cfg, a, e);
  }

  lemma StepSame(cfg: LearnConfig, a: map<string, Pattern>, b: map<string, Pattern>, e: Event, k: string)
    requires SameAt(a, b, k)
    ensures SameAt(LearnStep(cfg, a, e), LearnStep(cfg, b, e), k)
  {
    if e.o.key == k {
      var f := FoldConfig(cfg);
      UpsertSame(f, a, b, e.o, cfg.source, cfg.alpha, e.foldAt, cfg.sqrt);
      PromoteSame(cfg, a, b, k, Upserted(f, a, e.o, cfg.source, cfg.alpha, e.foldAt, cfg.sqrt),
                  Upserted(f, b, e.o, cfg.source, cfg.alpha, e.foldAt, cfg.sqrt));
    } else {
      StepElsewhere(cfg, a, e, k);
      StepElsewhere(cfg, b, e, k);
    }
  }

  /** From working sets that agree on an id, every run of events teaches the same of it,
      whatever else the two hold. */
  lemma {:induction false} RunSame(cfg: LearnConfig, a: map<string, Pattern>, b: map<string, Pattern>,
                                   events: seq<LearnSpec.Event>, k: string)
    requires SameAt(a, b, k)
    ensures SameAt(LearnRun(cfg, a, events), LearnRun(cfg, b, events), k)
  {
    if events != [] {
      var front := events[..|events| - 1];
      RunSame(cfg, a, b, front, k);
      StepSame(cfg, LearnRun(cfg, a, front), LearnRun(cfg, b, front), events[|events| - 1], k);
    }
  }

  // ---- the restart ---------------------------------------------------------------------------

  /** What the same instance loads after a Persist. */
  function Reloaded(t: Tables, w: Writer, ps: map<Id, Pattern>, ss: map<string, ServiceInfo>,
                    now: int): map<Id, Pattern>
    requires ValidScope(w.scope)
  {
    Load(PersistTables(t, w, ps, ss, now), w.scope, w.instance)
  }

  /** Nothing stands between the working set and its reload at an id: a carried pattern has
      its root's verdict, and one not carried has no row this instance could load. */
  ghost predicate Faithful(t: Tables, w: Writer, ps: map<Id, Pattern>, id: Id)
    requires ValidScope(w.scope)
  {
    if id in ps then RootVerdict(t, w.scope, id, ps[id].service) == ps[id].verdict
    else LoadRow(t, w.scope, w.instance, id).None?
  }

  /** What a restart loads agrees with the working set exactly there. */
  lemma ReloadedAgreesIff(t: Tables, w: Writer, ps: map<Id, Pattern>, ss: map<string, ServiceInfo>, now: int, id: Id)
    requires ValidScope(w.scope)
    ensures SameAt(Reloaded(t, w, ps, ss, now), ps, id) <==> Faithful(t, w, ps, id)
  {
    var u := PersistTables(t, w, ps, ss, now);
    LoadedIff(u, w.scope, w.instance, id);
    if id in ps {
      PersistThenLoad(t, w, ps, ss, now, id);
    } else {
      PersistKeepsOtherLoads(t, w, ps, ss, now, id, w.instance);
    }
  }

  /** A restart right after a flush is invisible to what is learned of such an id: over
      every later run of events under the same keys, its count, baselines, template and
      verdict are those of a process that never stopped. */
  lemma RestartInvisibleToLearning(cfg: LearnConfig, t: Tables, w: Writer, ps: map<Id, Pattern>,
                                   ss: map<string, ServiceInfo>,
                                   now: int, events: seq<LearnSpec.Event>, id: Id)
    requires ValidScope(w.scope) && Faithful(t, w, ps, id)
    ensures SameAt(LearnRun(cfg, Reloaded(t, w, ps, ss, now), events), LearnRun(cfg, ps, events), id)
  {
    ReloadedAgreesIff(t, w, ps, ss, now, id);
    RunSame(cfg, Reloaded(t, w, ps, ss, now), ps, events, id);
  }

  /** The verdict a Load reports once the id has been persisted. */
  function RootVerdict(t: Tables, scope: seq<Org>, id: Id, service: string): string
    requires ValidScope(scope)
  {
    var root := RootAfterUpsert(t, scope, id, service);
    if root.deleted then KNOWN else root.verdict
  }

  lemma LoadedIff(t: Tables, scope: seq<Org>, inst: int, id: Id)
    ensures id in Load(t, scope, inst) <==> LoadRow(t, scope, inst, id).Some?
  {
    var c := ChosenRoot(t, scope, id);
    if c.Some? { assert (c.value.0, id) in t.roots.Keys; }
  }
}
