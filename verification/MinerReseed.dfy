/** A miner seeded after a restart, from whatever ids and templates the catalog lists,
    compared with the miner before it. */
module MinerReseed {
  import opened Tokenizer
  import opened Templates
  import opened MinerSpec
  import opened MinerRuns

  // ---- what a seeded miner holds --------------------------------------------------------

  ghost predicate LiveTemplate(s: State, ts: Tokens)
  {
    exists h :: 0 <= h < |s.vals| && Live(s, h) && s.vals[h].tokens == ts
  }

  ghost predicate Seeded(cfg: Config, seeds: seq<Event>, ts: Tokens)
  {
    exists e <- seeds :: e.Seed? && Tokenize(e.template, cfg.isVariable) == ts
  }

  lemma SeedAdds(cfg: Config, r: State, e: Event, ts: Tokens)
    requires WellFormed(cfg, r) && e.Seed?
    ensures LiveTemplate(Next(cfg, r, e), ts) <==> LiveTemplate(r, ts) || Tokenize(e.template, cfg.isVariable) == ts
  {
    var n := Next(cfg, r, e);
    var t := Tokenize(e.template, cfg.isVariable);
    assert n.vals == r.vals + [Cluster(e.id, t, e.size, [t])];
    forall h ensures Live(n, h) <==> Live(r, h) || h == |r.vals| { AddLive(cfg, r, e.id, t, e.size, h); }
    if t == ts { assert n.vals[|r.vals|].tokens == ts && Live(n, |r.vals|); }
    if LiveTemplate(r, ts) {
      var h :| 0 <= h < |r.vals| && Live(r, h) && r.vals[h].tokens == ts;
      assert n.vals[h].tokens == ts && Live(n, h);
    }
  }

  lemma {:induction false} SeededTemplates(cfg: Config, r: State, seeds: seq<Event>, ts: Tokens)
    requires WellFormed(cfg, r) && forall e <- seeds :: e.Seed?
    ensures LiveTemplate(Run(cfg, r, seeds), ts) <==> LiveTemplate(r, ts) || Seeded(cfg, seeds, ts)
    decreases |seeds|
  {
    if seeds != [] {
      var e := seeds[0];
      assert e in seeds;
      NextWellFormed(cfg, r, e);
      SeedAdds(cfg, r, e, ts);
      SeededTemplates(cfg, Next(cfg, r, e), seeds[1..], ts);
      SeededSplit(cfg, seeds, ts);
    }
  }

  lemma SeededSplit(cfg: Config, seeds: seq<Event>, ts: Tokens)
    requires seeds != [] && forall e <- seeds :: e.Seed?
    ensures Seeded(cfg, seeds, ts) <==> Tokenize(seeds[0].template, cfg.isVariable) == ts || Seeded(cfg, seeds[1..], ts)
  {
    assert forall e :: e in seeds <==> e == seeds[0] || e in seeds[1..];
  }

  /** A miner seeded from scratch holds exactly the seeds' templates, whatever they are. */
  lemma SeedsAreLive(cfg: Config, seeds: seq<Event>, ts: Tokens)
    requires forall e <- seeds :: e.Seed?
    ensures LiveTemplate(Run(cfg, EMPTY, seeds), ts) <==> Seeded(cfg, seeds, ts)
  {
    SeededTemplates(cfg, EMPTY, seeds, ts);
    NothingLive(ts);
  }

  lemma NothingLive(ts: Tokens)
    ensures !LiveTemplate(EMPTY, ts)
  {
  }

  // ---- what a message finds -------------------------------------------------------------

  /** Some live template of the message's leaf has similarity at least `x` to it. */
  ghost predicate Reaches(cfg: Config, s: State, ts: Tokens, x: real)
  {
    exists t: Tokens :: KeyOf(cfg, t) == KeyOf(cfg, ts) && LiveTemplate(s, t) && Similarity(t, ts) >= x
  }

  lemma MatchedIffReaches(cfg: Config, s: State, ts: Tokens)
    requires WellFormed(cfg, s)
    ensures Matched(cfg, s, ts) <==> Reaches(cfg, s, ts, cfg.threshold)
  {
    var k := KeyOf(cfg, ts);
    BestDecides(cfg, s, ts);
    if Matched(cfg, s, ts) {
      var i :| 0 <= i < |Leaf(s, k)| && Similarity(s.vals[Leaf(s, k)[i]].tokens, ts) >= cfg.threshold;
      LeafIsLive(s, k, Leaf(s, k)[i]);
      assert LiveTemplate(s, s.vals[Leaf(s, k)[i]].tokens);
    }
    if Reaches(cfg, s, ts, cfg.threshold) {
      var t: Tokens :| KeyOf(cfg, t) == k && LiveTemplate(s, t) && Similarity(t, ts) >= cfg.threshold;
      var h :| 0 <= h < |s.vals| && Live(s, h) && s.vals[h].tokens == t;
      LiveInOwnLeaf(cfg, s, h);
      var i :| 0 <= i < |Leaf(s, k)| && Leaf(s, k)[i] == h;
    }
  }

  lemma NewIffReaches(cfg: Config, s: State, ts: Tokens)
    requires WellFormed(cfg, s)
    ensures ClusterStep(cfg, s, ts).isNew <==> !Reaches(cfg, s, ts, cfg.threshold)
  {
    NewIffUnmatched(cfg, s, ts);
    MatchedIffReaches(cfg, s, ts);
  }

  /** Some seed of the message's leaf is similar enough to it. */
  ghost predicate SeedMatches(cfg: Config, seeds: seq<Event>, ts: Tokens)
  {
    exists e <- seeds :: e.Seed? && SeedSimilar(cfg, e, ts)
  }

  predicate SeedSimilar(cfg: Config, e: Event, ts: Tokens)
    requires e.Seed?
  {
    var t := Tokenize(e.template, cfg.isVariable);
    KeyOf(cfg, t) == KeyOf(cfg, ts) && Similarity(t, ts) >= cfg.threshold
  }

  /** The answer right after a restart, whatever the catalog listed - templates that lag
      behind, of other partitions, of evicted clusters, or none where one was deleted: a
      message is known exactly when some listed template of its leaf is similar enough. */
  lemma AnswerAfterRestart(cfg: Config, seeds: seq<Event>, ts: Tokens)
    requires forall e <- seeds :: e.Seed?
    ensures ClusterStep(cfg, Run(cfg, EMPTY, seeds), ts).isNew <==> !SeedMatches(cfg, seeds, ts)
  {
    var r := Run(cfg, EMPTY, seeds);
    NewIffReaches(cfg, r, ts);
    if Reaches(cfg, r, ts, cfg.threshold) {
      var t: Tokens :| KeyOf(cfg, t) == KeyOf(cfg, ts) && LiveTemplate(r, t) && Similarity(t, ts) >= cfg.threshold;
      SeedsAreLive(cfg, seeds, t);
      var e :| e in seeds && e.Seed? && Tokenize(e.template, cfg.isVariable) == t;
      assert SeedSimilar(cfg, e, ts);
    }
    if SeedMatches(cfg, seeds, ts) {
      var e :| e in seeds && e.Seed? && SeedSimilar(cfg, e, ts);
      var t := Tokenize(e.template, cfg.isVariable);
      assert Seeded(cfg, seeds, t);
      SeedsAreLive(cfg, seeds, t);
    }
  }

  // ---- two miners compared --------------------------------------------------------------

  /** A higher template is at least as similar to every message. */
  lemma {:induction false} MatchesMonotone(a: Tokens, b: Tokens, m: Tokens, n: nat)
    requires Below(a, b) && n <= |a| == |m|
    ensures Matches(a, m, n) <= Matches(b, m, n)
  {
    if n > 0 {
      MatchesMonotone(a, b, m, n - 1);
      assert Agree(a[n - 1], m[n - 1]) ==> Agree(b[n - 1], m[n - 1]);
    }
  }

  lemma SimilarityMonotone(a: Tokens, b: Tokens, m: Tokens)
    requires Below(a, b)
    ensures Similarity(a, m) <= Similarity(b, m)
  {
    if |a| == |m| && a != [] {
      MatchesMonotone(a, b, m, |a|);
      FractionMonotone(Matches(a, m, |a|), Matches(b, m, |a|), |a|);
    }
  }

  lemma FractionMonotone(x: nat, y: nat, n: nat)
    requires x <= y && n > 0
    ensures x as real / n as real <= y as real / n as real
  {
  }

  /** `b` is live in `s`, in the leaf of `a` and above it. */
  ghost predicate HasAbove(cfg: Config, s: State, a: Tokens)
  {
    exists b: Tokens :: LiveTemplate(s, b) && KeyOf(cfg, b) == KeyOf(cfg, a) && Below(a, b)
  }

  /** Every live template of `r` is at or below one of `s` in its leaf. */
  ghost predicate CoveredBy(cfg: Config, r: State, s: State)
  {
    forall a: Tokens :: LiveTemplate(r, a) ==> HasAbove(cfg, s, a)
  }

  lemma CoveredReaches(cfg: Config, r: State, s: State, ts: Tokens, x: real)
    requires CoveredBy(cfg, r, s) && Reaches(cfg, r, ts, x)
    ensures Reaches(cfg, s, ts, x)
  {
    var a: Tokens :| KeyOf(cfg, a) == KeyOf(cfg, ts) && LiveTemplate(r, a) && Similarity(a, ts) >= x;
    assert HasAbove(cfg, s, a);
    var b: Tokens :| LiveTemplate(s, b) && KeyOf(cfg, b) == KeyOf(cfg, a) && Below(a, b);
    SimilarityMonotone(a, b, ts);
  }

  /** A word no variable detector blanks and none of these tokens is. */
  ghost predicate Fresh(cfg: Config, used: set<string>, w: string)
  {
    Plain(w) && w != WILDCARD && !cfg.isVariable(w) && w !in used
  }

  ghost predicate HasFresh(cfg: Config, used: set<string>) { exists w :: Fresh(cfg, used, w) }

  /** The detector leaves unboundedly many words alone. */
  ghost predicate Wordy(cfg: Config) { forall used: set<string> :: HasFresh(cfg, used) }

  ghost function TokensOf(s: State): set<string>
  {
    set h, i | 0 <= h < |s.vals| && 0 <= i < |s.vals[h].tokens| :: s.vals[h].tokens[i]
  }

  /** A message of a template's leaf that has `w` wherever the template is wild below its key. */
  function Instance(cfg: Config, a: Tokens, w: string): (m: Tokens)
    ensures |m| == |a|
  {
    seq(|a|, i requires 0 <= i < |a| => if a[i] == WILDCARD && i >= PathLen(cfg, |a|) then w else a[i])
  }

  lemma InstanceFits(cfg: Config, a: Tokens, w: string)
    requires Normal(a, cfg.isVariable) && Plain(w) && !cfg.isVariable(w)
    ensures Normal(Instance(cfg, a, w), cfg.isVariable) && KeyOf(cfg, Instance(cfg, a, w)) == KeyOf(cfg, a)
    ensures a != [] ==> Similarity(a, Instance(cfg, a, w)) == 1.0
  {
    var m := Instance(cfg, a, w);
    forall t | t in m ensures Clean(t) && (t == WILDCARD || !cfg.isVariable(t)) {
      var i :| 0 <= i < |m| && m[i] == t;
      assert a[i] in a;
    }
    assert m[..PathLen(cfg, |m|)] == a[..PathLen(cfg, |a|)];
    SimilarityIsOne(a, m);
    forall i | 0 <= i < |a| ensures Agree(a[i], m[i]) { }
  }

  /** Only a template above `a` in its leaf is fully similar to such a message. */
  lemma InstanceFinds(cfg: Config, s: State, a: Tokens, w: string, b: Tokens)
    requires LiveTemplate(s, b) && Fresh(cfg, TokensOf(s), w)
    requires KeyOf(cfg, b) == KeyOf(cfg, Instance(cfg, a, w)) == KeyOf(cfg, a)
    requires Similarity(b, Instance(cfg, a, w)) >= 1.0
    ensures Below(a, b)
  {
    var m := Instance(cfg, a, w);
    forall i | 0 <= i < |a| ensures b[i] == WILDCARD || a[i] == b[i] {
      assert Agree(b[i], m[i]);
      if i < PathLen(cfg, |a|) {
        assert KeyOf(cfg, b).1[i] == KeyOf(cfg, a).1[i];
      } else if a[i] == WILDCARD {
        NotFresh(s, b, i);
      }
    }
  }

  lemma NotFresh(s: State, b: Tokens, i: nat)
    requires LiveTemplate(s, b) && i < |b|
    ensures b[i] in TokensOf(s)
  {
    var h :| 0 <= h < |s.vals| && Live(s, h) && s.vals[h].tokens == b;
    assert s.vals[h].tokens[i] in TokensOf(s);
  }

  ghost predicate ReachesNoMore(cfg: Config, r: State, s: State)
  {
    forall ts: Tokens, x: real :: Normal(ts, cfg.isVariable) && Reaches(cfg, r, ts, x) ==> Reaches(cfg, s, ts, x)
  }

  /** One miner is at most as receptive as another - every message reaches at most the same
      similarity - exactly when each of its templates is at or below one of the other's. */
  lemma ReachesNoMoreIff(cfg: Config, r: State, s: State)
    requires WellFormed(cfg, r) && WellFormed(cfg, s) && Wordy(cfg)
    ensures ReachesNoMore(cfg, r, s) <==> CoveredBy(cfg, r, s)
  {
    if CoveredBy(cfg, r, s) {
      forall ts: Tokens, x: real | Normal(ts, cfg.isVariable) && Reaches(cfg, r, ts, x) ensures Reaches(cfg, s, ts, x) {
        CoveredReaches(cfg, r, s, ts, x);
      }
    }
    if ReachesNoMore(cfg, r, s) {
      forall a: Tokens | LiveTemplate(r, a) ensures HasAbove(cfg, s, a) { FindAbove(cfg, r, s, a); }
    }
  }

  lemma FindAbove(cfg: Config, r: State, s: State, a: Tokens)
    requires WellFormed(cfg, r) && Wordy(cfg) && ReachesNoMore(cfg, r, s) && LiveTemplate(r, a)
    ensures HasAbove(cfg, s, a)
  {
    assert HasFresh(cfg, TokensOf(s));
    var w :| Fresh(cfg, TokensOf(s), w);
    var m := Instance(cfg, a, w);
    InstanceFits(cfg, a, w);
    var x := if a == [] then 0.0 else 1.0;
    assert Reaches(cfg, r, m, x);
    assert Reaches(cfg, s, m, x);
    var b: Tokens :| KeyOf(cfg, b) == KeyOf(cfg, m) && LiveTemplate(s, b) && Similarity(b, m) >= x;
    if a == [] {
      assert b == [];
    } else {
      InstanceFinds(cfg, s, a, w, b);
    }
  }

  /** Two miners give every message the same best similarity exactly when each covers the
      other; then they also agree on what is new. */
  lemma SameSimilaritiesIff(cfg: Config, r: State, s: State)
    requires WellFormed(cfg, r) && WellFormed(cfg, s) && Wordy(cfg)
    ensures ReachesNoMore(cfg, r, s) && ReachesNoMore(cfg, s, r) <==> CoveredBy(cfg, r, s) && CoveredBy(cfg, s, r)
  {
    ReachesNoMoreIff(cfg, r, s);
    ReachesNoMoreIff(cfg, s, r);
  }

  /** Where one miner's templates lie below another's, what it knows the other knows. */
  lemma KnownBelowIsKnownAbove(cfg: Config, r: State, s: State, ts: Tokens)
    requires WellFormed(cfg, r) && WellFormed(cfg, s) && CoveredBy(cfg, r, s)
    ensures !ClusterStep(cfg, r, ts).isNew ==> !ClusterStep(cfg, s, ts).isNew
  {
    NewIffReaches(cfg, r, ts);
    NewIffReaches(cfg, s, ts);
    if Reaches(cfg, r, ts, cfg.threshold) { CoveredReaches(cfg, r, s, ts, cfg.threshold); }
  }
}
