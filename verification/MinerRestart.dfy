/** Repeating a message, and how templates rise over a run. */
module MinerRestart {
  import opened Tokenizer
  import opened Templates
  import opened MinerSpec
  import opened MinerRuns

  // ---- the same message again -------------------------------------------------------

  lemma BestIsFirstMost(vals: seq<Cluster>, leaf: seq<nat>, ts: Tokens, p: nat)
    requires p < |leaf| && forall i :: 0 <= i < |leaf| ==> leaf[i] < |vals|
    requires forall i :: 0 <= i < |leaf| ==>
      Similarity(vals[leaf[i]].tokens, ts) <= Similarity(vals[leaf[p]].tokens, ts)
    requires forall i :: 0 <= i < p ==> Similarity(vals[leaf[i]].tokens, ts) < Similarity(vals[leaf[p]].tokens, ts)
    ensures Best(vals, leaf, ts, |leaf|) == p
  {
  }

  lemma RepeatAfterMatch(cfg: Config, s: State, ts: Tokens)
    requires WellFormed(cfg, s) && Normal(ts, cfg.isVariable) && ts != [] && cfg.threshold <= 1.0
    requires !ClusterStep(cfg, s, ts).isNew
    ensures WellFormed(cfg, ClusterStep(cfg, s, ts).state)
    ensures ClusterStep(cfg, ClusterStep(cfg, s, ts).state, ts).handle == ClusterStep(cfg, s, ts).handle
    ensures !ClusterStep(cfg, ClusterStep(cfg, s, ts).state, ts).isNew
  {
    var r := ClusterStep(cfg, s, ts);
    MatchedAnswer(cfg, s, ts);
    assert LeafOk(cfg, s, KeyOf(cfg, ts));
    assert LeafOk(cfg, r.state, KeyOf(cfg, ts));
    var leaf := Leaf(s, KeyOf(cfg, ts));
    var p := Best(s.vals, leaf, ts, |leaf|);
    MatchedVals(cfg, s, ts, leaf[p]);
    MergeIsJoin(s.vals[leaf[p]].tokens, ts, ts);
    CoveredIsSimilar(ts, Merge(s.vals[leaf[p]].tokens, ts));
    forall i | 0 <= i < |leaf| ensures Similarity(r.state.vals[leaf[i]].tokens, ts) <= 1.0
                               ensures i < p ==> Similarity(r.state.vals[leaf[i]].tokens, ts) < 1.0 {
      if i < p { MatchedVals(cfg, s, ts, leaf[i]); }
    }
    BestIsFirstMost(r.state.vals, leaf, ts, p);
  }

  /** A message presented again at once gets the same cluster and is no longer new,
      unless the first call's new cluster evicted itself. */
  lemma RepeatFindsSameCluster(cfg: Config, s: State, ts: Tokens)
    requires Inv(cfg, s) && Normal(ts, cfg.isVariable) && ts != [] && cfg.threshold <= 1.0 && HashInjective(cfg)
    requires Live(ClusterStep(cfg, s, ts).state, ClusterStep(cfg, s, ts).handle)
    ensures Inv(cfg, ClusterStep(cfg, s, ts).state)
    ensures ClusterStep(cfg, ClusterStep(cfg, s, ts).state, ts).handle == ClusterStep(cfg, s, ts).handle
    ensures !ClusterStep(cfg, ClusterStep(cfg, s, ts).state, ts).isNew
  {
    StepInv(cfg, s, ts);
    if !ClusterStep(cfg, s, ts).isNew {
      RepeatAfterMatch(cfg, s, ts);
    } else {
      RepeatAfterMint(cfg, s, ts);
    }
  }

  lemma LeafUnmatched(cfg: Config, s: State, ts: Tokens, h: nat)
    requires WellFormed(cfg, s) && ClusterStep(cfg, s, ts).isNew && h < |s.vals| && Live(s, h)
    requires KeyOf(cfg, s.vals[h].tokens) == KeyOf(cfg, ts)
    ensures Similarity(s.vals[h].tokens, ts) < cfg.threshold
  {
    NewIffUnmatched(cfg, s, ts);
    LiveInOwnLeaf(cfg, s, h);
    var leaf := Leaf(s, KeyOf(cfg, ts));
    var j :| 0 <= j < |leaf| && leaf[j] == h;
    assert LeafOk(cfg, s, KeyOf(cfg, ts));
    assert !(Similarity(s.vals[leaf[j]].tokens, ts) >= cfg.threshold);
  }

  /** In the leaf after a mint, only the new cluster is fully similar to the message. */
  lemma MintedLeafSimilarity(cfg: Config, s: State, ts: Tokens, i: nat)
    requires WellFormed(cfg, s) && Normal(ts, cfg.isVariable) && ts != [] && cfg.threshold <= 1.0
    requires ClusterStep(cfg, s, ts).isNew && WellFormed(cfg, Minted(cfg, s, ts))
    requires i < |Leaf(Minted(cfg, s, ts), KeyOf(cfg, ts))|
    ensures var h := Leaf(Minted(cfg, s, ts), KeyOf(cfg, ts))[i];
      h < |Minted(cfg, s, ts).vals|
      && (if h == |s.vals| then Similarity(Minted(cfg, s, ts).vals[h].tokens, ts) == 1.0
          else Similarity(Minted(cfg, s, ts).vals[h].tokens, ts) < 1.0)
  {
    var r := Minted(cfg, s, ts);
    var k := KeyOf(cfg, ts);
    MintedVals(cfg, s, ts);
    assert LeafOk(cfg, r, k);
    var h := Leaf(r, k)[i];
    CoveredIsSimilar(ts, ts);
    if h != |s.vals| {
      assert h in Leaf(r, k);
      LeafIsLive(r, k, h);
      MintedLive(cfg, s, ts, h);
      LeafUnmatched(cfg, s, ts, h);
    }
  }

  /** A message only one cluster of its leaf is fully similar to is answered with it. */
  lemma OnlyFullMatch(cfg: Config, r: State, ts: Tokens, h: nat)
    requires WellFormed(cfg, r) && cfg.threshold <= 1.0 && h in Leaf(r, KeyOf(cfg, ts))
    requires LeafOk(cfg, r, KeyOf(cfg, ts))
    requires forall i {:trigger Leaf(r, KeyOf(cfg, ts))[i]} :: 0 <= i < |Leaf(r, KeyOf(cfg, ts))| ==>
      var g := Leaf(r, KeyOf(cfg, ts))[i];
      if g == h then Similarity(r.vals[g].tokens, ts) == 1.0 else Similarity(r.vals[g].tokens, ts) < 1.0
    ensures ClusterStep(cfg, r, ts).handle == h && !ClusterStep(cfg, r, ts).isNew
  {
    var leaf := Leaf(r, KeyOf(cfg, ts));
    var p :| 0 <= p < |leaf| && leaf[p] == h;
    BestIsFirstMost(r.vals, leaf, ts, p);
    BestDecides(cfg, r, ts);
  }

  lemma RepeatAfterMint(cfg: Config, s: State, ts: Tokens)
    requires WellFormed(cfg, s) && Normal(ts, cfg.isVariable) && ts != [] && cfg.threshold <= 1.0
    requires ClusterStep(cfg, s, ts).isNew && Live(Minted(cfg, s, ts), |s.vals|)
    ensures WellFormed(cfg, Minted(cfg, s, ts))
    ensures ClusterStep(cfg, Minted(cfg, s, ts), ts).handle == |s.vals|
        && !ClusterStep(cfg, Minted(cfg, s, ts), ts).isNew
  {
    var r := Minted(cfg, s, ts);
    MintedWellFormed(cfg, s, ts);
    MintedVals(cfg, s, ts);
    LiveInOwnLeaf(cfg, r, |s.vals|);
    BestDecides(cfg, r, ts);
    forall i | 0 <= i < |Leaf(r, KeyOf(cfg, ts))|
      ensures var g := Leaf(r, KeyOf(cfg, ts))[i];
        if g == |s.vals| then Similarity(r.vals[g].tokens, ts) == 1.0 else Similarity(r.vals[g].tokens, ts) < 1.0 {
      MintedLeafSimilarity(cfg, s, ts, i);
    }
    OnlyFullMatch(cfg, r, ts, |s.vals|);
  }

  /** The bound on the threshold is exact: from an empty miner a repeated message is
      recognised if and only if the threshold is at most 1. */
  lemma RepeatKnownIffThresholdAtMostOne(cfg: Config, ts: Tokens)
    requires ValidConfig(cfg) && Normal(ts, cfg.isVariable) && ts != []
    ensures WellFormed(cfg, ClusterStep(cfg, EMPTY, ts).state)
    ensures ClusterStep(cfg, ClusterStep(cfg, EMPTY, ts).state, ts).isNew <==> cfg.threshold > 1.0
  {
    StepWellFormed(cfg, EMPTY, ts);
    var r := ClusterStep(cfg, EMPTY, ts).state;
    var k := KeyOf(cfg, ts);
    MintedVals(cfg, EMPTY, ts);
    assert Leaf(r, k) == [0];
    CoveredIsSimilar(ts, ts);
    NewIffUnmatched(cfg, r, ts);
    assert Similarity(r.vals[Leaf(r, k)[0]].tokens, ts) == 1.0;
  }

  // ---- templates only rise ------------------------------------------------------------

  /** A step leaves every cluster's ID alone and its template where it was or higher. */
  lemma StepRaises(cfg: Config, s: State, e: Event, h: nat)
    requires WellFormed(cfg, s) && h < |s.vals|
    ensures h < |Next(cfg, s, e).vals| && Next(cfg, s, e).vals[h].id == s.vals[h].id
    ensures Below(s.vals[h].tokens, Next(cfg, s, e).vals[h].tokens)
  {
    if e.Message? && Tokenize(e.text, cfg.isVariable) != [] {
      var ts := Tokenize(e.text, cfg.isVariable);
      if ClusterStep(cfg, s, ts).isNew {
        MintedVals(cfg, s, ts);
      } else {
        MatchedVals(cfg, s, ts, h);
        if h == ClusterStep(cfg, s, ts).handle { MergeIsJoin(s.vals[h].tokens, ts, ts); }
      }
    }
  }

  lemma {:induction false} RunRaises(cfg: Config, s: State, events: seq<Event>, h: nat)
    requires WellFormed(cfg, s) && h < |s.vals|
    ensures h < |Run(cfg, s, events).vals| && Run(cfg, s, events).vals[h].id == s.vals[h].id
    ensures Below(s.vals[h].tokens, Run(cfg, s, events).vals[h].tokens)
    decreases |events|
  {
    if events != [] {
      StepRaises(cfg, s, events[0], h);
      NextWellFormed(cfg, s, events[0]);
      RunRaises(cfg, Next(cfg, s, events[0]), events[1..], h);
      BelowTransitive(s.vals[h].tokens, Next(cfg, s, events[0]).vals[h].tokens, Run(cfg, s, events).vals[h].tokens);
    }
  }

  /** The template the catalog stores for a pattern - the one returned for the first
      signal of a tick - stays at or below the miner's through whatever follows, for
      as long as the ID still names that cluster. */
  lemma StoredTemplateBelow(cfg: Config, s: State, ts: Tokens, later: seq<Event>)
    requires WellFormed(cfg, s) && Normal(ts, cfg.isVariable)
    ensures WellFormed(cfg, ClusterStep(cfg, s, ts).state)
    ensures var r := ClusterStep(cfg, s, ts);
      var end := Run(cfg, r.state, later);
      && r.handle < |r.state.vals| && r.handle < |end.vals|
      && Below(r.state.vals[r.handle].tokens, end.vals[r.handle].tokens)
      && end.vals[r.handle].id == r.state.vals[r.handle].id
  {
    StepWellFormed(cfg, s, ts);
    var r := ClusterStep(cfg, s, ts);
    if r.isNew { MintedVals(cfg, s, ts); } else { assert LeafOk(cfg, s, KeyOf(cfg, ts)); }
    RunRaises(cfg, r.state, later, r.handle);
  }

  // ---- when a template stands --------------------------------------------------------

  /** One event leaves a cluster alone, or has it absorb one message more. */
  lemma StepAbsorbs(cfg: Config, s: State, e: Event, h: nat)
    requires WellFormed(cfg, s) && h < |s.vals|
    ensures h < |Next(cfg, s, e).vals|
    ensures var c, d := s.vals[h], Next(cfg, s, e).vals[h];
      || (d.tokens == c.tokens && d.absorbed == c.absorbed)
      || (d.absorbed != [] && var m := d.absorbed[|d.absorbed| - 1];
          d.absorbed == c.absorbed + [m] && |m| == |c.tokens| && d.tokens == Merge(c.tokens, m))
  {
    if e.Message? && Tokenize(e.text, cfg.isVariable) != [] {
      var ts := Tokenize(e.text, cfg.isVariable);
      if ClusterStep(cfg, s, ts).isNew { MintedVals(cfg, s, ts); } else { MatchedVals(cfg, s, ts, h); }
    }
  }

  /** Merging leaves a template alone exactly when it covered the message already. */
  lemma MergeStandsIff(t: Tokens, m: Tokens)
    requires |t| == |m|
    ensures Merge(t, m) == t <==> Below(m, t)
  {
    MergeIsJoin(t, m, t);
    if Below(m, t) { BelowAntisymmetric(Merge(t, m), t); }
  }

  /** Over any further run a cluster's template stands exactly when it covered every
      message the cluster went on to absorb. */
  lemma {:induction false} TemplateStandsIff(cfg: Config, s: State, events: seq<Event>, h: nat)
    requires WellFormed(cfg, s) && h < |s.vals|
    ensures h < |Run(cfg, s, events).vals|
    ensures var c, d := s.vals[h], Run(cfg, s, events).vals[h];
      && |c.absorbed| <= |d.absorbed| && d.absorbed[..|c.absorbed|] == c.absorbed && Below(c.tokens, d.tokens)
      && (d.tokens == c.tokens <==> forall m <- d.absorbed[|c.absorbed|..] :: Below(m, c.tokens))
    decreases |events|
  {
    if events != [] {
      var n := Next(cfg, s, events[0]);
      NextWellFormed(cfg, s, events[0]);
      StepAbsorbs(cfg, s, events[0], h);
      StepRaises(cfg, s, events[0], h);
      TemplateStandsIff(cfg, n, events[1..], h);
      StandsThrough(s.vals[h], n.vals[h], Run(cfg, n, events[1..]).vals[h]);
    }
  }

  lemma StandsThrough(c: Cluster, n: Cluster, d: Cluster)
    requires Below(c.tokens, n.tokens) && Below(n.tokens, d.tokens)
    requires |n.absorbed| <= |d.absorbed| && d.absorbed[..|n.absorbed|] == n.absorbed
    requires d.tokens == n.tokens <==> forall m <- d.absorbed[|n.absorbed|..] :: Below(m, n.tokens)
    requires
      || (n.tokens == c.tokens && n.absorbed == c.absorbed)
      || (n.absorbed != [] && var m := n.absorbed[|n.absorbed| - 1];
          n.absorbed == c.absorbed + [m] && |m| == |c.tokens| && n.tokens == Merge(c.tokens, m))
    ensures |c.absorbed| <= |d.absorbed| && d.absorbed[..|c.absorbed|] == c.absorbed && Below(c.tokens, d.tokens)
    ensures d.tokens == c.tokens <==> forall m <- d.absorbed[|c.absorbed|..] :: Below(m, c.tokens)
  {
    BelowTransitive(c.tokens, n.tokens, d.tokens);
    if n.absorbed != c.absorbed {
      var m := n.absorbed[|n.absorbed| - 1];
      MergeStandsIff(c.tokens, m);
      assert d.absorbed[|c.absorbed|..] == [m] + d.absorbed[|n.absorbed|..];
      if d.tokens == c.tokens { BelowAntisymmetric(n.tokens, c.tokens); }
    }
  }
}
