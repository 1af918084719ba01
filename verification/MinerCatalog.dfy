/** The templates the catalog stores while the miner runs, and the miner a restart builds
    from them: tick by tick, the template stored for an id is the one its first message of
    the tick was answered with. */
module MinerCatalog {
  import opened Tokenizer
  import opened Templates
  import opened MinerSpec
  import opened MinerRuns
  import opened MinerRestart
  import opened MinerReseed

  /** The miner, the stored template text of each id, and the ids answered this tick. */
  datatype Book = Book(state: State, stored: map<string, string>, seen: set<string>)

  /** One message: only the first answer for an id in a tick is stored. */
  function MineText(cfg: Config, b: Book, text: string): Book
    requires WellFormed(cfg, b.state)
  {
    var ts := Tokenize(text, cfg.isVariable);
    if ts == [] then b else Answered(cfg, b, ts)
  }

  function Answered(cfg: Config, b: Book, ts: Tokens): Book
    requires WellFormed(cfg, b.state)
  {
    var r := ClusterStep(cfg, b.state, ts);
    HandleInRange(cfg, b.state, ts);
    Noted(b, r.state, r.state.vals[r.handle])
  }

  function Noted(b: Book, s: State, c: Cluster): Book
  {
    Book(s, if c.id in b.seen then b.stored else b.stored[c.id := Join(c.tokens)], b.seen + {c.id})
  }

  lemma HandleInRange(cfg: Config, s: State, ts: Tokens)
    requires WellFormed(cfg, s)
    ensures ClusterStep(cfg, s, ts).handle < |ClusterStep(cfg, s, ts).state.vals|
  {
    if ClusterStep(cfg, s, ts).isNew { MintedAnswer(cfg, s, ts); } else { BestDecides(cfg, s, ts); }
  }

  lemma MineTextWellFormed(cfg: Config, b: Book, text: string)
    requires WellFormed(cfg, b.state)
    ensures WellFormed(cfg, MineText(cfg, b, text).state)
  {
    var ts := Tokenize(text, cfg.isVariable);
    TokenizeIsNormal(text, cfg.isVariable);
    if ts != [] { StepWellFormed(cfg, b.state, ts); }
  }

  /** The messages of one tick, in order. */
  function MineBatch(cfg: Config, b: Book, batch: seq<string>): (r: Book)
    requires WellFormed(cfg, b.state)
    ensures WellFormed(cfg, r.state)
    decreases |batch|
  {
    if batch == [] then b
    else
      MineTextWellFormed(cfg, b, batch[0]);
      MineBatch(cfg, MineText(cfg, b, batch[0]), batch[1..])
  }

  function MineTicks(cfg: Config, b: Book, ticks: seq<seq<string>>): (r: Book)
    requires WellFormed(cfg, b.state)
    ensures WellFormed(cfg, r.state)
    decreases |ticks|
  {
    if ticks == [] then b else MineTicks(cfg, MineBatch(cfg, b.(seen := {}), ticks[0]), ticks[1..])
  }

  const EMPTY_BOOK := Book(EMPTY, map[], {})

  // ---- what the stored templates keep -----------------------------------------------------

  /** No cluster was ever evicted: every one made is still in its leaf. */
  ghost predicate AllLive(s: State) { forall h :: 0 <= h < |s.vals| ==> Live(s, h) }

  /** The text of a normal template that covers its id, at or below the id's cluster. */
  ghost predicate StoredAs(cfg: Config, s: State, id: string, text: string, t: Tokens)
  {
    && text == Join(t) && Normal(t, cfg.isVariable) && Covered(cfg, id, t)
    && forall h :: 0 <= h < |s.vals| && s.vals[h].id == id ==> Lags(cfg, t, s.vals[h].tokens)
  }

  /** A template and a later state of it. */
  predicate Lags(cfg: Config, t: Tokens, later: Tokens) { KeyOf(cfg, t) == KeyOf(cfg, later) && Below(t, later) }

  ghost predicate StoredOk(cfg: Config, s: State, id: string, text: string)
  {
    exists t: Tokens :: StoredAs(cfg, s, id, text, t)
  }

  ghost predicate BookOk(cfg: Config, b: Book)
  {
    && Inv(cfg, b.state) && AllLive(b.state) && b.seen <= b.state.index.Keys
    && (forall h :: 0 <= h < |b.state.vals| ==> b.state.vals[h].id in b.stored)
    && (forall id {:trigger StoredOk(cfg, b.state, id, b.stored[id])} :: id in b.stored ==>
        StoredOk(cfg, b.state, id, b.stored[id]))
  }

  /** A step raises every cluster within its leaf. */
  lemma StepLags(cfg: Config, s: State, ts: Tokens, h: nat)
    requires WellFormed(cfg, s) && Normal(ts, cfg.isVariable) && h < |s.vals|
    ensures var r := ClusterStep(cfg, s, ts).state;
      h < |r.vals| && r.vals[h].id == s.vals[h].id && Lags(cfg, s.vals[h].tokens, r.vals[h].tokens)
  {
    var a := ClusterStep(cfg, s, ts);
    if a.isNew {
      MintedAnswer(cfg, s, ts);
    } else {
      MatchedVals(cfg, s, ts, h);
      if h == a.handle {
        MergeIsJoin(s.vals[h].tokens, ts, ts);
        MergeKeepsLeaf(cfg, s.vals[h].tokens, ts);
      }
    }
  }

  /** No step brings an evicted cluster back. */
  lemma StepLive(cfg: Config, s: State, ts: Tokens)
    requires WellFormed(cfg, s) && Normal(ts, cfg.isVariable) && AllLive(ClusterStep(cfg, s, ts).state)
    ensures AllLive(s)
  {
    var a := ClusterStep(cfg, s, ts);
    forall h | 0 <= h < |s.vals| ensures Live(s, h) {
      StepLags(cfg, s, ts, h);
      assert Live(a.state, h);
      if a.isNew { MintedAnswer(cfg, s, ts); MintedLive(cfg, s, ts, h); } else { MatchedLive(cfg, s, ts, h); }
    }
  }

  lemma LagsOn(cfg: Config, t: Tokens, u: Tokens, v: Tokens)
    requires Lags(cfg, t, u) && Lags(cfg, u, v)
    ensures Lags(cfg, t, v)
  {
    BelowTransitive(t, u, v);
  }

  /** An older entry still lags after a step that adds no cluster of its id. */
  lemma StoredStays(cfg: Config, s: State, ts: Tokens, id: string, text: string)
    requires WellFormed(cfg, s) && Normal(ts, cfg.isVariable) && StoredOk(cfg, s, id, text)
    requires ClusterStep(cfg, s, ts).isNew ==> NewId(cfg, ts) != id
    ensures StoredOk(cfg, ClusterStep(cfg, s, ts).state, id, text)
  {
    var r := ClusterStep(cfg, s, ts).state;
    var t: Tokens :| StoredAs(cfg, s, id, text, t);
    forall h | 0 <= h < |r.vals| && r.vals[h].id == id ensures Lags(cfg, t, r.vals[h].tokens) {
      StepSize(cfg, s, ts);
      StepLags(cfg, s, ts, h);
      LagsOn(cfg, t, s.vals[h].tokens, r.vals[h].tokens);
    }
    assert StoredAs(cfg, r, id, text, t);
  }

  lemma StepSize(cfg: Config, s: State, ts: Tokens)
    requires WellFormed(cfg, s)
    ensures var a := ClusterStep(cfg, s, ts);
      if a.isNew then |a.state.vals| == |s.vals| + 1 && a.handle == |s.vals|
          && a.state.vals[|s.vals|] == MintedCluster(cfg, ts)
      else |a.state.vals| == |s.vals| && a.handle < |s.vals|
  {
    if ClusterStep(cfg, s, ts).isNew { MintedAnswer(cfg, s, ts); } else { BestDecides(cfg, s, ts); }
  }

  /** The answer itself is a covering template of its id. */
  lemma AnswerStored(cfg: Config, s: State, h: nat)
    requires Inv(cfg, s) && AllLive(s) && h < |s.vals|
    ensures StoredOk(cfg, s, s.vals[h].id, Join(s.vals[h].tokens))
  {
    var t := s.vals[h].tokens;
    assert Live(s, h);
    forall g | 0 <= g < |s.vals| && s.vals[g].id == s.vals[h].id ensures g == h { assert Live(s, g); }
    BelowSelf(t);
    assert StoredAs(cfg, s, s.vals[h].id, Join(t), t);
  }

  lemma BelowSelf(t: Tokens)
    ensures Below(t, t)
  {
  }

  /** An id answered earlier in the tick has a cluster, so no message mints it again. */
  lemma SeenIsNotMinted(cfg: Config, b: Book, ts: Tokens)
    requires BookOk(cfg, b) && Normal(ts, cfg.isVariable) && ts != [] && cfg.threshold <= 1.0 && HashInjective(cfg)
    requires ClusterStep(cfg, b.state, ts).isNew
    ensures NewId(cfg, ts) !in b.seen
    ensures forall h :: 0 <= h < |b.state.vals| ==> b.state.vals[h].id != NewId(cfg, ts)
  {
    var s := b.state;
    forall h | 0 <= h < |s.vals| ensures s.vals[h].id != NewId(cfg, ts) {
      assert Live(s, h);
      if s.vals[h].id == NewId(cfg, ts) {
        LiveIdMatches(cfg, s, ts, h);
        assert false;
      }
    }
    forall id | id in b.seen ensures id != NewId(cfg, ts) { assert s.vals[s.index[id]].id == id; }
  }

  /** A call that evicts nothing drops no entry of the map. */
  lemma IndexStays(cfg: Config, s: State, ts: Tokens, id: string)
    requires Inv(cfg, s) && Normal(ts, cfg.isVariable) && ts != [] && cfg.threshold <= 1.0 && HashInjective(cfg)
    requires AllLive(ClusterStep(cfg, s, ts).state) && id in s.index
    ensures id in ClusterStep(cfg, s, ts).state.index
  {
    StepInv(cfg, s, ts);
    StepLags(cfg, s, ts, s.index[id]);
    assert Live(ClusterStep(cfg, s, ts).state, s.index[id]);
  }

  lemma AnswerIndexed(cfg: Config, s: State, ts: Tokens)
    requires Inv(cfg, s) && Normal(ts, cfg.isVariable) && ts != [] && cfg.threshold <= 1.0 && HashInjective(cfg)
    requires AllLive(ClusterStep(cfg, s, ts).state)
    ensures var a := ClusterStep(cfg, s, ts); a.handle < |a.state.vals| && a.state.vals[a.handle].id in a.state.index
  {
    StepInv(cfg, s, ts);
    HandleInRange(cfg, s, ts);
    assert Live(ClusterStep(cfg, s, ts).state, ClusterStep(cfg, s, ts).handle);
  }

  lemma AnsweredSeen(cfg: Config, b: Book, ts: Tokens)
    requires BookOk(cfg, b) && Normal(ts, cfg.isVariable) && ts != [] && cfg.threshold <= 1.0 && HashInjective(cfg)
    requires AllLive(ClusterStep(cfg, b.state, ts).state)
    ensures Answered(cfg, b, ts).seen <= Answered(cfg, b, ts).state.index.Keys
  {
    AnswerIndexed(cfg, b.state, ts);
    forall id | id in b.seen ensures id in ClusterStep(cfg, b.state, ts).state.index {
      IndexStays(cfg, b.state, ts, id);
    }
  }

  /** Every stored id has its cluster: nothing was hidden at a restart. */
  ghost predicate Rooted(b: Book) { b.stored.Keys <= b.state.index.Keys }

  lemma AnsweredRooted(cfg: Config, b: Book, ts: Tokens)
    requires BookOk(cfg, b) && Normal(ts, cfg.isVariable) && ts != [] && cfg.threshold <= 1.0 && HashInjective(cfg)
    requires AllLive(ClusterStep(cfg, b.state, ts).state) && Rooted(b)
    ensures Rooted(Answered(cfg, b, ts))
  {
    AnswerIndexed(cfg, b.state, ts);
    forall id | id in b.stored ensures id in ClusterStep(cfg, b.state, ts).state.index {
      IndexStays(cfg, b.state, ts, id);
    }
  }

  lemma AnsweredEntry(cfg: Config, b: Book, ts: Tokens, id: string)
    requires BookOk(cfg, b) && Normal(ts, cfg.isVariable) && ts != [] && cfg.threshold <= 1.0 && HashInjective(cfg)
    requires AllLive(ClusterStep(cfg, b.state, ts).state) && id in Answered(cfg, b, ts).stored
    ensures StoredOk(cfg, Answered(cfg, b, ts).state, id, Answered(cfg, b, ts).stored[id])
  {
    var a := ClusterStep(cfg, b.state, ts);
    HandleInRange(cfg, b.state, ts);
    StepSize(cfg, b.state, ts);
    var c := a.state.vals[a.handle];
    if id == c.id && id !in b.seen {
      StepInv(cfg, b.state, ts);
      AnswerStored(cfg, a.state, a.handle);
    } else {
      assert StoredOk(cfg, b.state, id, b.stored[id]);
      if a.isNew { SeenIsNotMinted(cfg, b, ts); }
      StoredStays(cfg, b.state, ts, id, b.stored[id]);
    }
  }

  lemma NotedStores(b: Book, s: State, c: Cluster)
    ensures b.stored.Keys <= Noted(b, s, c).stored.Keys && (c.id in b.seen || c.id in Noted(b, s, c).stored)
  {
  }

  lemma SeenIsStored(cfg: Config, b: Book)
    requires BookOk(cfg, b)
    ensures b.seen <= b.stored.Keys
  {
    forall id | id in b.seen ensures id in b.stored { assert b.state.vals[b.state.index[id]].id == id; }
  }

  lemma AnsweredIds(cfg: Config, b: Book, ts: Tokens, h: nat)
    requires WellFormed(cfg, b.state) && Normal(ts, cfg.isVariable) && h < |ClusterStep(cfg, b.state, ts).state.vals|
    requires b.seen <= b.stored.Keys && forall g :: 0 <= g < |b.state.vals| ==> b.state.vals[g].id in b.stored
    ensures ClusterStep(cfg, b.state, ts).state.vals[h].id in Answered(cfg, b, ts).stored
  {
    var a := ClusterStep(cfg, b.state, ts);
    StepSize(cfg, b.state, ts);
    HandleInRange(cfg, b.state, ts);
    NotedStores(b, a.state, a.state.vals[a.handle]);
    if h < |b.state.vals| { StepLags(cfg, b.state, ts, h); }
  }

  lemma AnsweredOk(cfg: Config, b: Book, ts: Tokens)
    requires BookOk(cfg, b) && Normal(ts, cfg.isVariable) && ts != [] && cfg.threshold <= 1.0 && HashInjective(cfg)
    requires AllLive(ClusterStep(cfg, b.state, ts).state)
    ensures BookOk(cfg, Answered(cfg, b, ts))
  {
    var r := Answered(cfg, b, ts);
    StepInv(cfg, b.state, ts);
    AnsweredSeen(cfg, b, ts);
    SeenIsStored(cfg, b);
    forall id | id in r.stored ensures StoredOk(cfg, r.state, id, r.stored[id]) { AnsweredEntry(cfg, b, ts, id); }
    forall h | 0 <= h < |r.state.vals| ensures r.state.vals[h].id in r.stored { AnsweredIds(cfg, b, ts, h); }
  }

  // ---- over whole runs -----------------------------------------------------------------------

  lemma {:induction false} BatchLive(cfg: Config, b: Book, batch: seq<string>)
    requires WellFormed(cfg, b.state) && AllLive(MineBatch(cfg, b, batch).state)
    ensures AllLive(b.state)
    decreases |batch|
  {
    if batch != [] {
      var ts := Tokenize(batch[0], cfg.isVariable);
      MineTextWellFormed(cfg, b, batch[0]);
      BatchLive(cfg, MineText(cfg, b, batch[0]), batch[1..]);
      TokenizeIsNormal(batch[0], cfg.isVariable);
      if ts != [] { StepLive(cfg, b.state, ts); }
    }
  }

  lemma {:induction false} BatchOk(cfg: Config, b: Book, batch: seq<string>)
    requires BookOk(cfg, b) && cfg.threshold <= 1.0 && HashInjective(cfg) && AllLive(MineBatch(cfg, b, batch).state)
    ensures BookOk(cfg, MineBatch(cfg, b, batch)) && (Rooted(b) ==> Rooted(MineBatch(cfg, b, batch)))
    decreases |batch|
  {
    if batch != [] {
      var ts := Tokenize(batch[0], cfg.isVariable);
      MineTextWellFormed(cfg, b, batch[0]);
      BatchLive(cfg, MineText(cfg, b, batch[0]), batch[1..]);
      TokenizeIsNormal(batch[0], cfg.isVariable);
      if ts != [] {
        AnsweredOk(cfg, b, ts);
        if Rooted(b) { AnsweredRooted(cfg, b, ts); }
      }
      BatchOk(cfg, MineText(cfg, b, batch[0]), batch[1..]);
    }
  }

  lemma {:induction false} TicksLive(cfg: Config, b: Book, ticks: seq<seq<string>>)
    requires WellFormed(cfg, b.state) && AllLive(MineTicks(cfg, b, ticks).state)
    ensures AllLive(b.state)
    decreases |ticks|
  {
    if ticks != [] {
      TicksLive(cfg, MineBatch(cfg, b.(seen := {}), ticks[0]), ticks[1..]);
      BatchLive(cfg, b.(seen := {}), ticks[0]);
    }
  }

  /** Over every run of ticks that evicts nothing, each stored template covers its id and
      lies at or below the id's live template, in the same leaf. */
  lemma {:induction false} TicksOk(cfg: Config, b: Book, ticks: seq<seq<string>>)
    requires BookOk(cfg, b) && cfg.threshold <= 1.0 && HashInjective(cfg) && AllLive(MineTicks(cfg, b, ticks).state)
    ensures BookOk(cfg, MineTicks(cfg, b, ticks)) && (Rooted(b) ==> Rooted(MineTicks(cfg, b, ticks)))
    decreases |ticks|
  {
    if ticks != [] {
      var n := MineBatch(cfg, b.(seen := {}), ticks[0]);
      TicksLive(cfg, n, ticks[1..]);
      BatchOk(cfg, b.(seen := {}), ticks[0]);
      TicksOk(cfg, n, ticks[1..]);
    }
  }

  lemma EmptyBookOk(cfg: Config)
    ensures BookOk(cfg, EMPTY_BOOK) && Rooted(EMPTY_BOOK)
  {
  }
}
