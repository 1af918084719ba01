/** A restart on the catalog's stored templates: what it keeps, what it forgets, and what
    becomes of ids the catalog no longer lists. */
module MinerReboot {
  import opened Tokenizer
  import opened Templates
  import opened MinerSpec
  import opened MinerRuns
  import opened MinerRestart
  import opened MinerReseed
  import opened MinerCatalog

  /** The seeds list these templates, each id once, in whatever order and sizes. */
  ghost predicate Lists(seeds: seq<Event>, shown: map<string, string>)
  {
    && (forall e <- seeds :: e.Seed? && e.id in shown && e.template == shown[e.id])
    && (forall id <- shown :: exists e <- seeds :: e.Seed? && e.id == id)
    && (forall i, j :: 0 <= i < j < |seeds| && seeds[i].Seed? && seeds[j].Seed? ==> seeds[i].id != seeds[j].id)
  }

  /** The listed ids are stored, under the templates stored for them. */
  ghost predicate Shows(b: Book, shown: map<string, string>)
  {
    forall id <- shown :: id in b.stored && shown[id] == b.stored[id]
  }

  // ---- the seeded clusters ---------------------------------------------------------------

  ghost predicate FromSeed(cfg: Config, seeds: seq<Event>, c: Cluster)
  {
    exists e <- seeds :: e.Seed? && c.id == e.id && c.tokens == Tokenize(e.template, cfg.isVariable)
  }

  lemma {:induction false} SeededVals(cfg: Config, r: State, seeds: seq<Event>, h: nat)
    requires WellFormed(cfg, r) && (forall e <- seeds :: e.Seed?) && h < |Run(cfg, r, seeds).vals|
    ensures var c := Run(cfg, r, seeds).vals[h]; if h < |r.vals| then c == r.vals[h] else FromSeed(cfg, seeds, c)
    decreases |seeds|
  {
    if seeds != [] {
      var n := Next(cfg, r, seeds[0]);
      assert seeds[0] in seeds && forall e <- seeds[1..] :: e in seeds;
      NextWellFormed(cfg, r, seeds[0]);
      SeededVals(cfg, n, seeds[1..], h);
    }
  }

  lemma {:induction false} SeedingEvictsNothing(cfg: Config, r: State, seeds: seq<Event>)
    requires WellFormed(cfg, r) && AllLive(r) && forall e <- seeds :: e.Seed?
    ensures AllLive(Run(cfg, r, seeds))
    decreases |seeds|
  {
    if seeds != [] {
      var e := seeds[0];
      var n := Next(cfg, r, e);
      assert e in seeds && forall x <- seeds[1..] :: x in seeds;
      NextWellFormed(cfg, r, e);
      forall h | 0 <= h < |n.vals| ensures Live(n, h) {
        AddLive(cfg, r, e.id, Tokenize(e.template, cfg.isVariable), e.size, h);
      }
      SeedingEvictsNothing(cfg, n, seeds[1..]);
    }
  }

  /** Distinct ids with covering templates are good seeds. */
  lemma {:induction false} CoveringSeedsGood(cfg: Config, r: State, seeds: seq<Event>)
    requires WellFormed(cfg, r)
    requires forall e <- seeds :: e.Seed? && Covered(cfg, e.id, Tokenize(e.template, cfg.isVariable))
    requires forall i, j :: 0 <= i < j < |seeds| ==> seeds[i].id != seeds[j].id
    requires forall h, i :: 0 <= h < |r.vals| && 0 <= i < |seeds| ==> r.vals[h].id != seeds[i].id
    ensures GoodSeeds(cfg, r, seeds)
    decreases |seeds|
  {
    if seeds != [] {
      var e := seeds[0];
      var n := Next(cfg, r, e);
      assert e in seeds && forall x <- seeds[1..] :: x in seeds;
      NextWellFormed(cfg, r, e);
      forall h, i | 0 <= h < |n.vals| && 0 <= i < |seeds[1..]| ensures n.vals[h].id != seeds[1..][i].id {
        assert seeds[1..][i] == seeds[i + 1];
      }
      CoveringSeedsGood(cfg, n, seeds[1..]);
    }
  }

  /** The stored text of a good book reads back as its template. */
  lemma StoredReads(cfg: Config, s: State, id: string, text: string)
    requires StoredOk(cfg, s, id, text)
    ensures StoredAs(cfg, s, id, text, Tokenize(text, cfg.isVariable))
  {
    var t: Tokens :| StoredAs(cfg, s, id, text, t);
    TokenizeJoin(t, cfg.isVariable);
  }

  /** The templates a run answered with are good seeds, so every invariant of seeded runs
      carries across the restart. */
  lemma StoredSeedsGood(cfg: Config, b: Book, shown: map<string, string>, seeds: seq<Event>)
    requires BookOk(cfg, b) && Shows(b, shown) && Lists(seeds, shown)
    ensures GoodSeeds(cfg, EMPTY, seeds)
  {
    forall e | e in seeds ensures Covered(cfg, e.id, Tokenize(e.template, cfg.isVariable)) {
      assert StoredOk(cfg, b.state, e.id, b.stored[e.id]);
      StoredReads(cfg, b.state, e.id, b.stored[e.id]);
    }
    CoveringSeedsGood(cfg, EMPTY, seeds);
  }

  /** The book a new process starts from: the listed clusters, and all the stored rows. */
  function Rebooted(cfg: Config, b: Book, seeds: seq<Event>): Book { Book(Run(cfg, EMPTY, seeds), b.stored, {}) }

  /** A restart keeps the book good, whatever it lists of it, so runs and restarts alternate. */
  lemma RebootKeepsBook(cfg: Config, b: Book, shown: map<string, string>, seeds: seq<Event>)
    requires BookOk(cfg, b) && Shows(b, shown) && Lists(seeds, shown) && cfg.threshold <= 1.0 && HashInjective(cfg)
    ensures BookOk(cfg, Rebooted(cfg, b, seeds))
    ensures shown == b.stored ==> Rooted(Rebooted(cfg, b, seeds))
  {
    var r := Run(cfg, EMPTY, seeds);
    StoredSeedsGood(cfg, b, shown, seeds);
    RunInv(cfg, EMPTY, seeds);
    SeedingEvictsNothing(cfg, EMPTY, seeds);
    forall h | 0 <= h < |r.vals| ensures r.vals[h].id in b.stored { SeededVals(cfg, EMPTY, seeds, h); }
    forall id | id in b.stored ensures StoredOk(cfg, r, id, b.stored[id]) { RebootStored(cfg, b, shown, seeds, id); }
    if shown == b.stored {
      forall id | id in b.stored ensures id in r.index { SeedIndexed(cfg, EMPTY, seeds, id); }
    }
  }

  lemma RebootStored(cfg: Config, b: Book, shown: map<string, string>, seeds: seq<Event>, id: string)
    requires BookOk(cfg, b) && Shows(b, shown) && Lists(seeds, shown) && id in b.stored
    ensures StoredOk(cfg, Run(cfg, EMPTY, seeds), id, b.stored[id])
  {
    var r := Run(cfg, EMPTY, seeds);
    assert StoredOk(cfg, b.state, id, b.stored[id]);
    StoredReads(cfg, b.state, id, b.stored[id]);
    var t := Tokenize(b.stored[id], cfg.isVariable);
    forall h | 0 <= h < |r.vals| && r.vals[h].id == id ensures Lags(cfg, t, r.vals[h].tokens) {
      SeededVals(cfg, EMPTY, seeds, h);
      BelowSelf(t);
    }
    assert StoredAs(cfg, r, id, b.stored[id], t);
  }

  lemma {:induction false} SeedIndexed(cfg: Config, r: State, seeds: seq<Event>, id: string)
    requires WellFormed(cfg, r) && forall e <- seeds :: e.Seed?
    requires id in r.index || exists e <- seeds :: e.Seed? && e.id == id
    ensures id in Run(cfg, r, seeds).index
    decreases |seeds|
  {
    if seeds != [] {
      assert seeds[0] in seeds && forall x <- seeds[1..] :: x in seeds;
      NextWellFormed(cfg, r, seeds[0]);
      if id !in Next(cfg, r, seeds[0]).index {
        var e :| e in seeds && e.Seed? && e.id == id;
        assert e in seeds[1..];
      }
      SeedIndexed(cfg, Next(cfg, r, seeds[0]), seeds[1..], id);
    }
  }

  // ---- what is still known ------------------------------------------------------------------

  /** The restarted miner lies at or below the one before it. */
  lemma RebootCovered(cfg: Config, b: Book, shown: map<string, string>, seeds: seq<Event>)
    requires BookOk(cfg, b) && Shows(b, shown) && shown.Keys <= b.state.index.Keys && Lists(seeds, shown)
    ensures CoveredBy(cfg, Run(cfg, EMPTY, seeds), b.state)
  {
    forall a: Tokens | LiveTemplate(Run(cfg, EMPTY, seeds), a) ensures HasAbove(cfg, b.state, a) {
      SeedsAreLive(cfg, seeds, a);
      var e :| e in seeds && e.Seed? && Tokenize(e.template, cfg.isVariable) == a;
      assert StoredOk(cfg, b.state, e.id, b.stored[e.id]);
      StoredReads(cfg, b.state, e.id, b.stored[e.id]);
      var h := b.state.index[e.id];
      assert b.state.vals[h].id == e.id && Live(b.state, h);
      assert LiveTemplate(b.state, b.state.vals[h].tokens);
    }
  }

  /** A message that is known after a restart was known before it: over every run of ticks
      that evicts nothing, and whichever of the stored ids are listed. */
  lemma KnownAfterWasKnown(cfg: Config, b: Book, shown: map<string, string>, seeds: seq<Event>, ts: Tokens)
    requires BookOk(cfg, b) && Shows(b, shown) && shown.Keys <= b.state.index.Keys && Lists(seeds, shown)
    ensures !ClusterStep(cfg, Run(cfg, EMPTY, seeds), ts).isNew ==> !ClusterStep(cfg, b.state, ts).isNew
  {
    RebootCovered(cfg, b, shown, seeds);
    KnownBelowIsKnownAbove(cfg, Run(cfg, EMPTY, seeds), b.state, ts);
  }

  /** Some listed template of a live template's leaf is still above it. */
  ghost predicate Stands(cfg: Config, shown: map<string, string>, live: Tokens)
  {
    exists id <- shown :: Lags(cfg, live, Tokenize(shown[id], cfg.isVariable))
  }

  /** The restart changes no message's best similarity exactly when every live template is
      still at or below a listed one of its leaf. */
  lemma RestartEquivalentIff(cfg: Config, b: Book, shown: map<string, string>, seeds: seq<Event>)
    requires BookOk(cfg, b) && Shows(b, shown) && shown.Keys <= b.state.index.Keys && Lists(seeds, shown) && Wordy(cfg)
    ensures var r := Run(cfg, EMPTY, seeds);
      ReachesNoMore(cfg, r, b.state)
      && (ReachesNoMore(cfg, b.state, r) <==> forall h :: 0 <= h < |b.state.vals| ==>
          Stands(cfg, shown, b.state.vals[h].tokens))
  {
    var r := Run(cfg, EMPTY, seeds);
    RebootCovered(cfg, b, shown, seeds);
    ReachesNoMoreIff(cfg, r, b.state);
    ReachesNoMoreIff(cfg, b.state, r);
    CoveredIffStands(cfg, b, shown, seeds);
  }

  lemma CoveredIffStands(cfg: Config, b: Book, shown: map<string, string>, seeds: seq<Event>)
    requires AllLive(b.state) && Lists(seeds, shown)
    ensures CoveredBy(cfg, b.state, Run(cfg, EMPTY, seeds))
        <==> forall h :: 0 <= h < |b.state.vals| ==> Stands(cfg, shown, b.state.vals[h].tokens)
  {
    var r := Run(cfg, EMPTY, seeds);
    forall h | 0 <= h < |b.state.vals| ensures HasAbove(cfg, r, b.state.vals[h].tokens)
        <==> Stands(cfg, shown, b.state.vals[h].tokens) {
      AboveIffStands(cfg, shown, seeds, b.state.vals[h].tokens);
    }
    forall h | 0 <= h < |b.state.vals| ensures LiveTemplate(b.state, b.state.vals[h].tokens) {
      assert Live(b.state, h);
    }
  }

  lemma AboveIffStands(cfg: Config, shown: map<string, string>, seeds: seq<Event>, a: Tokens)
    requires Lists(seeds, shown)
    ensures HasAbove(cfg, Run(cfg, EMPTY, seeds), a) <==> Stands(cfg, shown, a)
  {
    var r := Run(cfg, EMPTY, seeds);
    if HasAbove(cfg, r, a) {
      var t: Tokens :| LiveTemplate(r, t) && KeyOf(cfg, t) == KeyOf(cfg, a) && Below(a, t);
      SeedsAreLive(cfg, seeds, t);
      var e :| e in seeds && e.Seed? && Tokenize(e.template, cfg.isVariable) == t;
      assert Lags(cfg, a, Tokenize(shown[e.id], cfg.isVariable));
    }
    if Stands(cfg, shown, a) {
      var id :| id in shown && Lags(cfg, a, Tokenize(shown[id], cfg.isVariable));
      var e :| e in seeds && e.Seed? && e.id == id;
      var t := Tokenize(e.template, cfg.isVariable);
      assert Seeded(cfg, seeds, t);
      SeedsAreLive(cfg, seeds, t);
    }
  }

  // ---- an id the catalog no longer lists ----------------------------------------------------

  /** A deleted pattern is not listed, so a restart forgets its cluster: a line answers
      with its id again - and meets its tombstone - exactly when no listed template is
      similar enough and the line has the very tokens the id was hashed from. */
  lemma DeletedIdAnswersIff(cfg: Config, seeds: seq<Event>, origin: Tokens, ts: Tokens)
    requires (forall e <- seeds :: e.Seed? && e.id != NewId(cfg, origin)) && HashInjective(cfg)
    requires Normal(origin, cfg.isVariable) && Normal(ts, cfg.isVariable)
    ensures var a := ClusterStep(cfg, Run(cfg, EMPTY, seeds), ts);
      && a.handle < |a.state.vals|
      && (a.state.vals[a.handle].id == NewId(cfg, origin) <==> !SeedMatches(cfg, seeds, ts) && ts == origin)
  {
    var r := Run(cfg, EMPTY, seeds);
    AnswerAfterRestart(cfg, seeds, ts);
    HandleInRange(cfg, r, ts);
    if ClusterStep(cfg, r, ts).isNew {
      MintedAnswer(cfg, r, ts);
      if NewId(cfg, ts) == NewId(cfg, origin) { JoinInjective(ts, origin, cfg.isVariable); }
    } else {
      BestDecides(cfg, r, ts);
      MatchedVals(cfg, r, ts, ClusterStep(cfg, r, ts).handle);
      SeededVals(cfg, EMPTY, seeds, ClusterStep(cfg, r, ts).handle);
    }
  }
}
