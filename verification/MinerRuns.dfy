/** What every run of the miner keeps: cluster identity, the ID map, leaf bounds,
    least templates, and equivalence across a restart. */
module MinerRuns {
  import opened Tokenizer
  import opened Templates
  import opened MinerSpec

  // ---- invariants ---------------------------------------------------------------

  /** A template covers, in its own leaf, the tokens its ID was derived from. */
  ghost predicate Covered(cfg: Config, id: string, ts: Tokens)
  {
    exists o: Tokens :: Normal(o, cfg.isVariable) && KeyOf(cfg, o) == KeyOf(cfg, ts) && Below(o, ts)
      && id == NewId(cfg, o)
  }

  /** Every leaf cluster is covered and is in the ID map under its own ID; so no two
      leaf clusters share an ID. */
  ghost predicate Identified(cfg: Config, s: State)
    requires WellFormed(cfg, s)
  {
    forall h :: 0 <= h < |s.vals| && Live(s, h) ==>
      Covered(cfg, s.vals[h].id, s.vals[h].tokens) && s.vals[h].id in s.index && s.index[s.vals[h].id] == h
  }

  /** Each template is the least one covering all messages its cluster absorbed. */
  ghost predicate LeastTemplates(s: State)
  {
    forall h :: 0 <= h < |s.vals| ==> s.vals[h].absorbed != [] && IsLeastCover(s.vals[h].tokens, s.vals[h].absorbed)
  }

  /** Map entries carry their own ID, and one outside the leaves is still as it was minted. */
  ghost predicate DetachedAsMinted(cfg: Config, s: State)
    requires WellFormed(cfg, s)
  {
    forall id <- s.index :: s.vals[s.index[id]].id == id
      && (!Live(s, s.index[id]) ==> s.vals[s.index[id]] == MintedCluster(cfg, s.vals[s.index[id]].tokens))
  }

  ghost predicate Inv(cfg: Config, s: State)
  {
    WellFormed(cfg, s) && Identified(cfg, s) && LeastTemplates(s) && DetachedAsMinted(cfg, s)
  }

  lemma LiveInOwnLeaf(cfg: Config, s: State, h: nat)
    requires WellFormed(cfg, s) && Live(s, h)
    ensures h < |s.vals| && h in Leaf(s, KeyOf(cfg, s.vals[h].tokens))
  {
    var k :| k in s.leaves && h in s.leaves[k];
    var i :| 0 <= i < |s.leaves[k]| && s.leaves[k][i] == h;
    assert LeafFits(cfg, s, k);
  }

  lemma LeafIsLive(s: State, k: LeafKey, h: nat)
    requires h in Leaf(s, k)
    ensures Live(s, h)
  {
  }

  // ---- a live cluster of a message is always found ------------------------------------

  /** With a threshold of at most 1, a message whose ID a leaf cluster carries is
      never answered "new": no duplicate is minted. */
  lemma LiveIdMatches(cfg: Config, s: State, ts: Tokens, h: nat)
    requires WellFormed(cfg, s) && Identified(cfg, s) && cfg.threshold <= 1.0 && HashInjective(cfg)
    requires Normal(ts, cfg.isVariable) && ts != []
    requires Live(s, h) && h < |s.vals| && s.vals[h].id == NewId(cfg, ts)
    ensures !ClusterStep(cfg, s, ts).isNew
  {
    var c := s.vals[h];
    var o: Tokens :| Normal(o, cfg.isVariable) && KeyOf(cfg, o) == KeyOf(cfg, c.tokens) && Below(o, c.tokens)
        && c.id == NewId(cfg, o);
    assert Join(o) == Join(ts);
    JoinInjective(o, ts, cfg.isVariable);
    LiveInOwnLeaf(cfg, s, h);
    CoveredIsSimilar(ts, c.tokens);
    var leaf := Leaf(s, KeyOf(cfg, ts));
    var i :| 0 <= i < |leaf| && leaf[i] == h;
    assert Similarity(s.vals[leaf[i]].tokens, ts) >= cfg.threshold;
    NewIffUnmatched(cfg, s, ts);
  }

  // ---- one step -----------------------------------------------------------------------

  lemma AppendedLive(cfg: Config, s: State, c: Cluster, h: nat)
    requires WellFormed(cfg, s)
    ensures Live(Appended(cfg, s, c), h) <==> Live(s, h) || h == |s.vals|
  {
    var k := KeyOf(cfg, c.tokens);
    var a := Appended(cfg, s, c);
    if Live(a, h) {
      var j :| j in a.leaves && h in a.leaves[j];
      if j != k { assert h in s.leaves[j]; }
    }
    if h == |s.vals| { assert a.leaves[k][|Leaf(s, k)|] == h; }
    if Live(s, h) {
      var j :| j in s.leaves && h in s.leaves[j];
      assert h in a.leaves[j];
    }
  }

  lemma EvictLive(cfg: Config, a: State, k: LeafKey, h: nat)
    requires WellFormed(cfg, a) && k in a.leaves && a.leaves[k] != [] && LeafFits(cfg, a, k)
    ensures Live(Evict(a, k), h) <==> Live(a, h) && h != a.leaves[k][Smallest(a.vals, a.leaves[k], |a.leaves[k]|)]
  {
    var leaf := a.leaves[k];
    var m := Smallest(a.vals, leaf, |leaf|);
    WithoutKeeps(leaf, m);
    EvictWellFormed(cfg, a, k);
    var r := Evict(a, k);
    if Live(r, h) {
      LiveInOwnLeaf(cfg, r, h);
      LeafIsLive(a, KeyOf(cfg, r.vals[h].tokens), h);
    }
    if Live(a, h) && h != leaf[m] {
      var j :| j in a.leaves && h in a.leaves[j];
      assert h in r.leaves[j];
    }
  }

  /** The leaf a minting step appends to, and the handle it would evict. */
  function Grown(cfg: Config, s: State, ts: Tokens): seq<nat>
  {
    Leaf(s, KeyOf(cfg, ts)) + [|s.vals|]
  }

  function Victim(cfg: Config, s: State, ts: Tokens): (h: nat)
    requires WellFormed(cfg, s)
    ensures h in Grown(cfg, s, ts)
  {
    assert LeafOk(cfg, s, KeyOf(cfg, ts));
    var leaf := Grown(cfg, s, ts);
    leaf[Smallest(s.vals + [MintedCluster(cfg, ts)], leaf, |leaf|)]
  }

  /** Where the clusters of a minting step end up. */
  lemma MintedLive(cfg: Config, s: State, ts: Tokens, h: nat)
    requires WellFormed(cfg, s) && Normal(ts, cfg.isVariable)
    ensures Live(Minted(cfg, s, ts), h) <==>
              (Live(s, h) || h == |s.vals|) && !(|Leaf(s, KeyOf(cfg, ts))| >= cfg.maxChildren
                && h == Victim(cfg, s, ts))
  {
    var k := KeyOf(cfg, ts);
    var c := MintedCluster(cfg, ts);
    var a := Appended(cfg, s, c);
    AppendedWellFormed(cfg, s, c);
    AppendedLive(cfg, s, c, h);
    assert a.leaves[k] == Grown(cfg, s, ts);
    EvictWellFormed(cfg, a, k);
    EvictLive(cfg, a, k, h);
    MintedLeaves(cfg, s, ts);
    if |Leaf(s, k)| >= cfg.maxChildren {
      SameLeavesSameLive(Minted(cfg, s, ts), Evict(a, k), h);
    } else {
      SameLeavesSameLive(Minted(cfg, s, ts), a, h);
    }
  }

  lemma SameLeavesSameLive(s: State, r: State, h: nat)
    requires s.leaves == r.leaves
    ensures Live(s, h) <==> Live(r, h)
  {
  }

  lemma MintedLeaves(cfg: Config, s: State, ts: Tokens)
    requires WellFormed(cfg, s)
    ensures var a := Appended(cfg, s, MintedCluster(cfg, ts));
      var k := KeyOf(cfg, ts);
      LeafOk(cfg, a, k) && Leaf(a, k) == Grown(cfg, s, ts)
      && Minted(cfg, s, ts).leaves == (if |Leaf(s, k)| >= cfg.maxChildren then Evict(a, k).leaves else a.leaves)
  {
    assert LeafOk(cfg, s, KeyOf(cfg, ts));
    assert LeafOk(cfg, Appended(cfg, s, MintedCluster(cfg, ts)), KeyOf(cfg, ts));
    assert Minted(cfg, s, ts).leaves == Crowded(cfg, s, ts).leaves;
  }

  lemma VictimIsNewIff(cfg: Config, s: State, ts: Tokens)
    requires WellFormed(cfg, s)
    ensures Victim(cfg, s, ts) == |s.vals| <==> forall h <- Leaf(s, KeyOf(cfg, ts)) ::
      h < |s.vals| && s.vals[h].size > 1
  {
    var k := KeyOf(cfg, ts);
    var leaf := Grown(cfg, s, ts);
    var vals := s.vals + [MintedCluster(cfg, ts)];
    assert LeafOk(cfg, s, k);
    var m := Smallest(vals, leaf, |leaf|);
    if m == |leaf| - 1 {
      forall h | h in Leaf(s, k) ensures h < |s.vals| && s.vals[h].size > 1 {
        var i :| 0 <= i < |Leaf(s, k)| && Leaf(s, k)[i] == h;
        assert leaf[i] == h && vals[leaf[|leaf| - 1]].size == 1;
      }
    } else {
      assert leaf[m] == Leaf(s, k)[m] && leaf[m] in Leaf(s, k) && leaf[m] < |s.vals|;
      assert leaf[|leaf| - 1] == |s.vals| && vals[|s.vals|].size == 1;
      assert vals[leaf[m]].size <= 1;
    }
  }

  /** A new cluster evicts itself exactly when its leaf was full and every cluster
      there had absorbed more than one message. */
  lemma SelfEvictionIff(cfg: Config, s: State, ts: Tokens)
    requires WellFormed(cfg, s) && Normal(ts, cfg.isVariable) && ClusterStep(cfg, s, ts).isNew
    ensures var leaf := Leaf(s, KeyOf(cfg, ts));
      !Live(ClusterStep(cfg, s, ts).state, |s.vals|) <==>
        |leaf| >= cfg.maxChildren && forall h <- leaf :: h < |s.vals| && s.vals[h].size > 1
  {
    MintedAnswer(cfg, s, ts);
    MintedLive(cfg, s, ts, |s.vals|);
    VictimIsNewIff(cfg, s, ts);
  }

  lemma MintedIndex(cfg: Config, s: State, ts: Tokens, h: nat)
    requires Inv(cfg, s) && Normal(ts, cfg.isVariable) && ts != [] && cfg.threshold <= 1.0 && HashInjective(cfg)
    requires ClusterStep(cfg, s, ts).isNew && h < |s.vals| && Live(Minted(cfg, s, ts), h)
    ensures s.vals[h].id in Minted(cfg, s, ts).index && Minted(cfg, s, ts).index[s.vals[h].id] == h
    ensures Live(s, h)
  {
    MintedLive(cfg, s, ts, h);
    if s.vals[h].id == NewId(cfg, ts) {
      LiveIdMatches(cfg, s, ts, h);
      assert false;
    }
    var e := Victim(cfg, s, ts);
    if e < |s.vals| {
      assert e in Leaf(s, KeyOf(cfg, ts));
      LeafIsLive(s, KeyOf(cfg, ts), e);
    }
    MintedIndexRow(cfg, s, ts, s.vals[h].id);
  }

  /** The map after a mint: the new ID in, the victim's ID out, the rest as before. */
  lemma MintedIndexRow(cfg: Config, s: State, ts: Tokens, id: string)
    requires WellFormed(cfg, s) && id != NewId(cfg, ts) && id in s.index
    ensures var full := |Leaf(s, KeyOf(cfg, ts))| >= cfg.maxChildren;
      var vals := s.vals + [MintedCluster(cfg, ts)];
      Victim(cfg, s, ts) < |vals|
      && (id in Minted(cfg, s, ts).index <==> !(full && vals[Victim(cfg, s, ts)].id == id))
      && (id in Minted(cfg, s, ts).index ==> Minted(cfg, s, ts).index[id] == s.index[id])
  {
    var k := KeyOf(cfg, ts);
    assert LeafOk(cfg, s, k);
    var a := Appended(cfg, s, MintedCluster(cfg, ts));
    assert Leaf(a, k) == Grown(cfg, s, ts);
    var leaf := Grown(cfg, s, ts);
    assert forall i :: 0 <= i < |leaf| ==> leaf[i] < |a.vals|;
    var m := Smallest(a.vals, leaf, |leaf|);
    assert leaf[m] == Victim(cfg, s, ts);
  }

  lemma SelfCovered(cfg: Config, ts: Tokens)
    requires Normal(ts, cfg.isVariable)
    ensures Covered(cfg, NewId(cfg, ts), ts) && IsLeastCover(ts, [ts])
  {
    assert Below(ts, ts);
    forall u: Tokens | forall m <- [ts] :: Below(m, u) ensures Below(ts, u) { assert ts in [ts]; }
  }

  lemma MintedVals(cfg: Config, s: State, ts: Tokens)
    requires WellFormed(cfg, s)
    ensures Minted(cfg, s, ts).vals == s.vals + [MintedCluster(cfg, ts)]
    ensures NewId(cfg, ts) in Minted(cfg, s, ts).index && Minted(cfg, s, ts).index[NewId(cfg, ts)] == |s.vals|
    ensures forall id <- Minted(cfg, s, ts).index :: id != NewId(cfg, ts) ==>
        id in s.index && s.index[id] == Minted(cfg, s, ts).index[id]
  {
  }

  lemma MintedIdentified(cfg: Config, s: State, ts: Tokens)
    requires Inv(cfg, s) && Normal(ts, cfg.isVariable) && ts != [] && cfg.threshold <= 1.0 && HashInjective(cfg)
    requires ClusterStep(cfg, s, ts).isNew
    ensures WellFormed(cfg, Minted(cfg, s, ts)) && Identified(cfg, Minted(cfg, s, ts))
  {
    MintedWellFormed(cfg, s, ts);
    MintedVals(cfg, s, ts);
    var r := Minted(cfg, s, ts);
    forall h | 0 <= h < |r.vals| && Live(r, h)
      ensures Covered(cfg, r.vals[h].id, r.vals[h].tokens) && r.vals[h].id in r.index && r.index[r.vals[h].id] == h {
      if h < |s.vals| {
        MintedIndex(cfg, s, ts, h);
      } else {
        SelfCovered(cfg, ts);
      }
    }
  }

  /** A map entry of another ID that is outside the leaves after a mint was already
      there, and outside, before: whoever is evicted loses its entry. */
  lemma MintedStrays(cfg: Config, s: State, ts: Tokens, id: string)
    requires WellFormed(cfg, s) && DetachedAsMinted(cfg, s) && Normal(ts, cfg.isVariable)
        && ClusterStep(cfg, s, ts).isNew
    requires id in Minted(cfg, s, ts).index && id != NewId(cfg, ts)
        && !Live(Minted(cfg, s, ts), Minted(cfg, s, ts).index[id])
    ensures id in s.index && s.index[id] == Minted(cfg, s, ts).index[id] && !Live(s, s.index[id])
  {
    MintedVals(cfg, s, ts);
    MintedIndexRow(cfg, s, ts, id);
    MintedLive(cfg, s, ts, s.index[id]);
  }

  lemma MintedDetached(cfg: Config, s: State, ts: Tokens)
    requires Inv(cfg, s) && Normal(ts, cfg.isVariable) && ClusterStep(cfg, s, ts).isNew
    ensures WellFormed(cfg, Minted(cfg, s, ts)) && DetachedAsMinted(cfg, Minted(cfg, s, ts))
  {
    MintedWellFormed(cfg, s, ts);
    MintedVals(cfg, s, ts);
    var r := Minted(cfg, s, ts);
    forall id | id in r.index
      ensures r.vals[r.index[id]].id == id
      ensures !Live(r, r.index[id]) ==> r.vals[r.index[id]] == MintedCluster(cfg, r.vals[r.index[id]].tokens) {
      if id != NewId(cfg, ts) && !Live(r, r.index[id]) { MintedStrays(cfg, s, ts, id); }
    }
  }

  lemma MatchedLive(cfg: Config, s: State, ts: Tokens, h: nat)
    requires WellFormed(cfg, s) && !ClusterStep(cfg, s, ts).isNew
    ensures Live(ClusterStep(cfg, s, ts).state, h) <==> Live(s, h)
    ensures Live(s, ClusterStep(cfg, s, ts).handle)
  {
    var r := ClusterStep(cfg, s, ts);
    assert r.state.leaves == s.leaves;
    LeafIsLive(s, KeyOf(cfg, ts), r.handle);
  }

  lemma MatchedVals(cfg: Config, s: State, ts: Tokens, h: nat)
    requires WellFormed(cfg, s) && !ClusterStep(cfg, s, ts).isNew && h < |s.vals|
    ensures var r := ClusterStep(cfg, s, ts);
      && |r.state.vals| == |s.vals| && r.state.index == s.index && r.handle < |s.vals|
      && |s.vals[r.handle].tokens| == |ts| && KeyOf(cfg, s.vals[r.handle].tokens) == KeyOf(cfg, ts)
      && (h != r.handle ==> r.state.vals[h] == s.vals[h])
      && r.state.vals[r.handle]
         == Cluster(s.vals[r.handle].id, Merge(s.vals[r.handle].tokens, ts), s.vals[r.handle].size + 1,
                    s.vals[r.handle].absorbed + [ts])
  {
    assert LeafOk(cfg, s, KeyOf(cfg, ts));
  }

  lemma MatchedIdentified(cfg: Config, s: State, ts: Tokens)
    requires WellFormed(cfg, s) && Identified(cfg, s) && Normal(ts, cfg.isVariable) && !ClusterStep(cfg, s, ts).isNew
    ensures WellFormed(cfg, ClusterStep(cfg, s, ts).state) && Identified(cfg, ClusterStep(cfg, s, ts).state)
  {
    var r := ClusterStep(cfg, s, ts);
    MatchedAnswer(cfg, s, ts);
    forall h | 0 <= h < |r.state.vals| && Live(r.state, h)
      ensures Covered(cfg, r.state.vals[h].id, r.state.vals[h].tokens)
      ensures r.state.vals[h].id in r.state.index && r.state.index[r.state.vals[h].id] == h {
      MatchedLive(cfg, s, ts, h);
      MatchedVals(cfg, s, ts, h);
      if h == r.handle {
        RaisedCovered(cfg, s.vals[h].id, s.vals[h].tokens, ts);
      }
    }
  }

  lemma RaisedCovered(cfg: Config, id: string, t: Tokens, m: Tokens)
    requires Covered(cfg, id, t) && Normal(t, cfg.isVariable) && Normal(m, cfg.isVariable)
        && KeyOf(cfg, t) == KeyOf(cfg, m)
    ensures Covered(cfg, id, Merge(t, m))
  {
    MergeKeepsLeaf(cfg, t, m);
    MergeIsJoin(t, m, t);
    var o: Tokens :| Normal(o, cfg.isVariable) && KeyOf(cfg, o) == KeyOf(cfg, t) && Below(o, t) && id == NewId(cfg, o);
    BelowTransitive(o, t, Merge(t, m));
  }

  lemma MatchedLeast(cfg: Config, s: State, ts: Tokens)
    requires WellFormed(cfg, s) && LeastTemplates(s) && !ClusterStep(cfg, s, ts).isNew
    ensures LeastTemplates(ClusterStep(cfg, s, ts).state)
  {
    var r := ClusterStep(cfg, s, ts);
    forall h | 0 <= h < |r.state.vals|
      ensures r.state.vals[h].absorbed != [] && IsLeastCover(r.state.vals[h].tokens, r.state.vals[h].absorbed) {
      MatchedVals(cfg, s, ts, h);
      if h == r.handle {
        MergeExtendsCover(s.vals[h].tokens, s.vals[h].absorbed, ts);
      }
    }
  }

  lemma MatchedDetached(cfg: Config, s: State, ts: Tokens)
    requires WellFormed(cfg, s) && DetachedAsMinted(cfg, s) && !ClusterStep(cfg, s, ts).isNew
        && Normal(ts, cfg.isVariable)
    ensures WellFormed(cfg, ClusterStep(cfg, s, ts).state) && DetachedAsMinted(cfg, ClusterStep(cfg, s, ts).state)
  {
    var r := ClusterStep(cfg, s, ts);
    MatchedAnswer(cfg, s, ts);
    forall id | id in r.state.index
      ensures r.state.vals[r.state.index[id]].id == id
      ensures !Live(r.state, r.state.index[id]) ==>
                r.state.vals[r.state.index[id]] == MintedCluster(cfg, r.state.vals[r.state.index[id]].tokens) {
      MatchedVals(cfg, s, ts, s.index[id]);
      MatchedLive(cfg, s, ts, s.index[id]);
    }
  }

  lemma MatchedInv(cfg: Config, s: State, ts: Tokens)
    requires Inv(cfg, s) && Normal(ts, cfg.isVariable) && !ClusterStep(cfg, s, ts).isNew
    ensures Inv(cfg, ClusterStep(cfg, s, ts).state)
  {
    MatchedIdentified(cfg, s, ts);
    MatchedLeast(cfg, s, ts);
    MatchedDetached(cfg, s, ts);
  }

  lemma MintedLeast(cfg: Config, s: State, ts: Tokens)
    requires WellFormed(cfg, s) && LeastTemplates(s) && Normal(ts, cfg.isVariable)
    ensures LeastTemplates(Minted(cfg, s, ts))
  {
    MintedVals(cfg, s, ts);
    SelfCovered(cfg, ts);
  }

  lemma StepInv(cfg: Config, s: State, ts: Tokens)
    requires Inv(cfg, s) && Normal(ts, cfg.isVariable) && ts != [] && cfg.threshold <= 1.0 && HashInjective(cfg)
    ensures Inv(cfg, ClusterStep(cfg, s, ts).state)
  {
    if ClusterStep(cfg, s, ts).isNew {
      MintedIdentified(cfg, s, ts);
      MintedDetached(cfg, s, ts);
      MintedLeast(cfg, s, ts);
      MintedAnswer(cfg, s, ts);
    } else {
      MatchedInv(cfg, s, ts);
    }
  }

  // ---- runs ---------------------------------------------------------------------------

  datatype Event =
    | Message(text: string)
    | Seed(id: string, template: string, size: nat)

  function Next(cfg: Config, s: State, e: Event): State
    requires WellFormed(cfg, s)
  {
    match e
    case Message(text) =>
      var ts := Tokenize(text, cfg.isVariable);
      if ts == [] then s else ClusterStep(cfg, s, ts).state
    case Seed(id, template, size) => AddStep(cfg, s, id, Tokenize(template, cfg.isVariable), size)
  }

  lemma NextWellFormed(cfg: Config, s: State, e: Event)
    requires WellFormed(cfg, s)
    ensures WellFormed(cfg, Next(cfg, s, e))
  {
    TokenizeIsNormal(if e.Message? then e.text else e.template, cfg.isVariable);
    match e
    case Message(text) =>
      if Tokenize(text, cfg.isVariable) != [] { StepWellFormed(cfg, s, Tokenize(text, cfg.isVariable)); }
    case Seed(id, template, size) => AddWellFormed(cfg, s, id, Tokenize(template, cfg.isVariable), size);
  }

  function Run(cfg: Config, s: State, events: seq<Event>): (r: State)
    requires WellFormed(cfg, s)
    ensures WellFormed(cfg, r)
    decreases |events|
  {
    if events == [] then s
    else
      NextWellFormed(cfg, s, events[0]);
      Run(cfg, Next(cfg, s, events[0]), events[1..])
  }

  /** A seed read back from a catalog: an ID no leaf cluster has, and a template that
      covers the tokens behind it. */
  ghost predicate GoodSeed(cfg: Config, s: State, e: Event)
    requires WellFormed(cfg, s)
  {
    e.Seed? ==>
      && (forall h :: 0 <= h < |s.vals| && Live(s, h) ==> s.vals[h].id != e.id)
      && Covered(cfg, e.id, Tokenize(e.template, cfg.isVariable))
  }

  ghost predicate GoodSeeds(cfg: Config, s: State, events: seq<Event>)
    requires WellFormed(cfg, s)
    decreases |events|
  {
    events == [] || (GoodSeed(cfg, s, events[0])
                     && (NextWellFormed(cfg, s, events[0]); GoodSeeds(cfg, Next(cfg, s, events[0]), events[1..])))
  }

  lemma AddLive(cfg: Config, s: State, id: string, ts: Tokens, size: nat, h: nat)
    requires WellFormed(cfg, s)
    ensures Live(AddStep(cfg, s, id, ts, size), h) <==> Live(s, h) || h == |s.vals|
  {
    var c := Cluster(id, ts, size, [ts]);
    AppendedLive(cfg, s, c, h);
    SameLeavesSameLive(AddStep(cfg, s, id, ts, size), Appended(cfg, s, c), h);
  }

  lemma AddInv(cfg: Config, s: State, e: Event)
    requires Inv(cfg, s) && e.Seed? && GoodSeed(cfg, s, e)
    ensures Inv(cfg, Next(cfg, s, e))
  {
    var ts := Tokenize(e.template, cfg.isVariable);
    NextWellFormed(cfg, s, e);
    TokenizeIsNormal(e.template, cfg.isVariable);
    SelfCovered(cfg, ts);
    var r := Next(cfg, s, e);
    assert r.vals == s.vals + [Cluster(e.id, ts, e.size, [ts])] && r.index == s.index[e.id := |s.vals|];
    forall h ensures Live(r, h) <==> Live(s, h) || h == |s.vals| {
      AddLive(cfg, s, e.id, ts, e.size, h);
    }
    AddedIdentified(cfg, s, r, e.id, ts, e.size);
    AddedDetached(cfg, s, r, e.id, ts, e.size);
  }

  ghost predicate Adds(s: State, r: State, id: string, ts: Tokens, size: nat)
  {
    && r.vals == s.vals + [Cluster(id, ts, size, [ts])] && r.index == s.index[id := |s.vals|]
    && forall h :: Live(r, h) <==> Live(s, h) || h == |s.vals|
  }

  lemma AddedIdentified(cfg: Config, s: State, r: State, id: string, ts: Tokens, size: nat)
    requires WellFormed(cfg, s) && WellFormed(cfg, r) && Adds(s, r, id, ts, size) && Identified(cfg, s)
        && Covered(cfg, id, ts)
    requires forall h :: 0 <= h < |s.vals| && Live(s, h) ==> s.vals[h].id != id
    ensures Identified(cfg, r)
  {
    forall h | 0 <= h < |r.vals| && Live(r, h)
      ensures Covered(cfg, r.vals[h].id, r.vals[h].tokens) && r.vals[h].id in r.index && r.index[r.vals[h].id] == h {
      assert h < |s.vals| ==> Live(s, h) && r.vals[h] == s.vals[h];
    }
  }

  lemma AddedDetached(cfg: Config, s: State, r: State, id: string, ts: Tokens, size: nat)
    requires WellFormed(cfg, s) && WellFormed(cfg, r) && Adds(s, r, id, ts, size) && DetachedAsMinted(cfg, s)
    ensures DetachedAsMinted(cfg, r)
  {
    forall x | x in r.index
      ensures r.vals[r.index[x]].id == x && (!Live(r, r.index[x]) ==>
          r.vals[r.index[x]] == MintedCluster(cfg, r.vals[r.index[x]].tokens)) {
      if x != id { assert r.index[x] == s.index[x] && r.vals[r.index[x]] == s.vals[s.index[x]]; }
    }
  }

  /** Over every run from an empty miner - seeded from a catalog or not - with a
      threshold of at most 1: leaf clusters are indexed under their own, distinct IDs,
      templates are least covers, and stray map entries are self-evicted mints. */
  lemma {:induction false} RunInv(cfg: Config, s: State, events: seq<Event>)
    requires Inv(cfg, s) && cfg.threshold <= 1.0 && HashInjective(cfg) && GoodSeeds(cfg, s, events)
    ensures Inv(cfg, Run(cfg, s, events))
    decreases |events|
  {
    if events != [] {
      var e := events[0];
      match e {
        case Message(text) =>
          TokenizeIsNormal(text, cfg.isVariable);
          if Tokenize(text, cfg.isVariable) != [] { StepInv(cfg, s, Tokenize(text, cfg.isVariable)); }
        case Seed(_, _, _) => AddInv(cfg, s, e);
      }
      RunInv(cfg, Next(cfg, s, e), events[1..]);
    }
  }

  /** No two leaf clusters of a reachable miner share an ID, and each sits in the leaf
      of its own template. */
  lemma ClusterIdentity(cfg: Config, events: seq<Event>, h: nat, g: nat)
    requires cfg.threshold <= 1.0 && HashInjective(cfg) && GoodSeeds(cfg, EMPTY, events)
    requires Live(Run(cfg, EMPTY, events), h) && Live(Run(cfg, EMPTY, events), g)
    ensures var s := Run(cfg, EMPTY, events);
      && h < |s.vals| && g < |s.vals|
      && (s.vals[h].id == s.vals[g].id ==> h == g)
      && h in Leaf(s, KeyOf(cfg, s.vals[h].tokens))
      && IsLeastCover(s.vals[h].tokens, s.vals[h].absorbed)
  {
    RunInv(cfg, EMPTY, events);
    var s := Run(cfg, EMPTY, events);
    LiveInOwnLeaf(cfg, s, h);
    LiveInOwnLeaf(cfg, s, g);
  }

  // ---- leaf bound -------------------------------------------------------------------------

  ghost predicate Bounded(cfg: Config, s: State)
  {
    forall k <- s.leaves :: |s.leaves[k]| <= cfg.maxChildren
  }

  lemma StepBounded(cfg: Config, s: State, ts: Tokens)
    requires WellFormed(cfg, s) && Bounded(cfg, s)
    ensures Bounded(cfg, ClusterStep(cfg, s, ts).state)
  {
    if ClusterStep(cfg, s, ts).isNew {
      MintedAnswer(cfg, s, ts);
      MintedBounded(cfg, s, ts);
    }
  }

  lemma MintedBounded(cfg: Config, s: State, ts: Tokens)
    requires WellFormed(cfg, s) && Bounded(cfg, s)
    ensures Bounded(cfg, Minted(cfg, s, ts))
  {
    MintedLeaves(cfg, s, ts);
    var r := Minted(cfg, s, ts);
    forall k | k in r.leaves ensures |r.leaves[k]| <= cfg.maxChildren {
      if k in s.leaves { assert |s.leaves[k]| <= cfg.maxChildren; }
    }
  }

  /** Without seeds no leaf ever holds more than maxChildren clusters. */
  lemma {:induction false} UnseededLeavesBounded(cfg: Config, s: State, events: seq<Event>)
    requires WellFormed(cfg, s) && Bounded(cfg, s) && forall e <- events :: e.Message?
    requires cfg.maxChildren > 0
    ensures Bounded(cfg, Run(cfg, s, events))
    decreases |events|
  {
    if events != [] {
      var e := events[0];
      assert e in events;
      StepBounded(cfg, s, Tokenize(e.text, cfg.isVariable));
      NextWellFormed(cfg, s, e);
      UnseededLeavesBounded(cfg, Next(cfg, s, e), events[1..]);
    }
  }
}
