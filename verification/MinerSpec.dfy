/** The drain miner as a state machine over cluster handles, and what every run of
    it keeps. The heap miner is proved to follow it step by step.

    `vals` lists every cluster ever made (its index is its handle), `leaves` holds
    the handles of each leaf in order, `index` is the side map from cluster ID. The
    `absorbed` messages of a cluster are history. The variable detector and the ID
    hash are parameters; an ID is taken to determine the text it was hashed from. */
module MinerSpec {
  import opened Tokenizer
  import opened Templates

  datatype Config = Config(threshold: real, depth: nat, maxChildren: nat,
                           isVariable: string -> bool, hash: string -> string)

  predicate ValidConfig(cfg: Config)
  {
    cfg.threshold > 0.0 && cfg.depth > 0 && cfg.maxChildren > 0
  }

  ghost predicate HashInjective(cfg: Config)
  {
    forall a: string, b: string :: cfg.hash(a) == cfg.hash(b) ==> a == b
  }

  /** A leaf: the token count and the keys of the first `depth` tokens. */
  type LeafKey = (nat, Tokens)

  datatype Cluster = Cluster(id: string, tokens: Tokens, size: nat, absorbed: seq<Tokens>)

  datatype State = State(vals: seq<Cluster>, leaves: map<LeafKey, seq<nat>>, index: map<string, nat>)

  const EMPTY := State([], map[], map[])

  function Key(cfg: Config, t: string): string
  {
    if t == WILDCARD || cfg.isVariable(t) then WILDCARD else t
  }

  function PathLen(cfg: Config, n: nat): (d: nat)
    ensures d <= n
  {
     if cfg.depth < n then cfg.depth else n
  }

  /** The leaf of a normal template, whose every token is its own key. */
  function KeyOf(cfg: Config, ts: Tokens): LeafKey { (|ts|, ts[..PathLen(cfg, |ts|)]) }

  lemma NormalKey(cfg: Config, ts: Tokens, i: nat)
    requires Normal(ts, cfg.isVariable) && i < |ts|
    ensures Key(cfg, ts[i]) == ts[i]
  {
    assert ts[i] in ts;
  }

  function NewId(cfg: Config, ts: Tokens): string { cfg.hash(Join(ts)) }

  function Leaf(s: State, k: LeafKey): seq<nat> { if k in s.leaves then s.leaves[k] else [] }

  ghost predicate Live(s: State, h: nat)
  {
    exists k <- s.leaves :: h in s.leaves[k]
  }

  // ---- well-formed states ---------------------------------------------------------

  ghost predicate LeafFits(cfg: Config, s: State, k: LeafKey)
    requires k in s.leaves
  {
    forall i :: 0 <= i < |s.leaves[k]| ==> s.leaves[k][i] < |s.vals| && KeyOf(cfg, s.vals[s.leaves[k][i]].tokens) == k
  }

  predicate NoRepeat(leaf: seq<nat>)
  {
    forall i, j :: 0 <= i < j < |leaf| ==> leaf[i] != leaf[j]
  }

  /** Every leaf cluster has its leaf's length and key path, and sits in one place;
      templates are normal; the index points at clusters. */
  ghost predicate WellFormed(cfg: Config, s: State)
  {
    && (forall k <- s.leaves :: LeafFits(cfg, s, k) && NoRepeat(s.leaves[k]))
    && (forall h :: 0 <= h < |s.vals| ==> Normal(s.vals[h].tokens, cfg.isVariable))
    && (forall id <- s.index :: s.index[id] < |s.vals|)
  }

  // ---- similarity search and eviction ------------------------------------------------

  /** The position of the first most similar cluster among the first `n`. */
  function Best(vals: seq<Cluster>, leaf: seq<nat>, ts: Tokens, n: nat): (b: nat)
    requires 0 < n <= |leaf| && forall i :: 0 <= i < |leaf| ==> leaf[i] < |vals|
    ensures b < n
    ensures forall i :: 0 <= i < n ==> Similarity(vals[leaf[i]].tokens, ts) <= Similarity(vals[leaf[b]].tokens, ts)
    ensures forall i :: 0 <= i < b ==> Similarity(vals[leaf[i]].tokens, ts) < Similarity(vals[leaf[b]].tokens, ts)
  {
    if n == 1 then 0
    else
      var b := Best(vals, leaf, ts, n - 1);
      if Similarity(vals[leaf[n - 1]].tokens, ts) > Similarity(vals[leaf[b]].tokens, ts) then n - 1 else b
  }

  /** The position of the first smallest cluster among the first `n`. */
  function Smallest(vals: seq<Cluster>, leaf: seq<nat>, n: nat): (b: nat)
    requires 0 < n <= |leaf| && forall i :: 0 <= i < |leaf| ==> leaf[i] < |vals|
    ensures b < n
    ensures forall i :: 0 <= i < n ==> vals[leaf[b]].size <= vals[leaf[i]].size
    ensures forall i :: 0 <= i < b ==> vals[leaf[b]].size < vals[leaf[i]].size
  {
    if n == 1 then 0
    else
      var b := Smallest(vals, leaf, n - 1);
      if vals[leaf[n - 1]].size < vals[leaf[b]].size then n - 1 else b
  }

  ghost predicate Matched(cfg: Config, s: State, ts: Tokens)
    requires WellFormed(cfg, s)
  {
    exists i :: 0 <= i < |Leaf(s, KeyOf(cfg, ts))|
      && Similarity(s.vals[Leaf(s, KeyOf(cfg, ts))[i]].tokens, ts) >= cfg.threshold
  }

  // ---- the steps -----------------------------------------------------------------------

  datatype Answer = Answer(state: State, handle: nat, isNew: bool)

  function Without(leaf: seq<nat>, i: nat): seq<nat>
    requires i < |leaf|
  {
    leaf[..i] + leaf[i + 1..]
  }

  /** Append a cluster to its leaf, no eviction. */
  function Appended(cfg: Config, s: State, c: Cluster): State
  {
    var k := KeyOf(cfg, c.tokens);
    State(s.vals + [c], s.leaves[k := Leaf(s, k) + [|s.vals|]], s.index)
  }

  function Shrunk(s: State, k: LeafKey, m: nat): State
    requires m < |Leaf(s, k)|
  {
    s.(leaves := s.leaves[k := Without(Leaf(s, k), m)])
  }

  function Unregistered(s: State, id: string): State { s.(index := s.index - {id}) }

  /** Drop the cluster at a position of a leaf and its ID's map entry. */
  function Dropped(s: State, k: LeafKey, m: nat): State
    requires m < |Leaf(s, k)| && Leaf(s, k)[m] < |s.vals|
  {
    Unregistered(Shrunk(s, k, m), s.vals[Leaf(s, k)[m]].id)
  }

  /** Drop the smallest cluster of a leaf. */
  function Evict(s: State, k: LeafKey): State
    requires Leaf(s, k) != [] && forall i :: 0 <= i < |Leaf(s, k)| ==> Leaf(s, k)[i] < |s.vals|
  {
    Dropped(s, k, Smallest(s.vals, Leaf(s, k), |Leaf(s, k)|))
  }

  function MintedCluster(cfg: Config, ts: Tokens): Cluster { Cluster(NewId(cfg, ts), ts, 1, [ts]) }

  /** Append a fresh cluster and evict when the leaf overflows. */
  function Crowded(cfg: Config, s: State, ts: Tokens): State
    requires WellFormed(cfg, s)
  {
    var k := KeyOf(cfg, ts);
    var a := Appended(cfg, s, MintedCluster(cfg, ts));
    assert LeafOk(cfg, s, k);
    if |Leaf(a, k)| > cfg.maxChildren then Evict(a, k) else a
  }

  /** A new cluster enters its leaf, then its ID is registered. */
  function Minted(cfg: Config, s: State, ts: Tokens): State
    requires WellFormed(cfg, s)
  {
    var e := Crowded(cfg, s, ts);
    e.(index := e.index[NewId(cfg, ts) := |s.vals|])
  }

  /** Merge a message into the template of a cluster. */
  function Absorbed(s: State, h: nat, ts: Tokens): State
    requires h < |s.vals| && |s.vals[h].tokens| == |ts|
  {
    var c := s.vals[h];
    s.(vals := s.vals[h := Cluster(c.id, Merge(c.tokens, ts), c.size + 1, c.absorbed + [ts])])
  }

  /** One Cluster call on a non-empty token list. */
  function ClusterStep(cfg: Config, s: State, ts: Tokens): Answer
    requires WellFormed(cfg, s)
  {
    var leaf := Leaf(s, KeyOf(cfg, ts));
    assert LeafOk(cfg, s, KeyOf(cfg, ts));
    if leaf != [] && Similarity(s.vals[leaf[Best(s.vals, leaf, ts, |leaf|)]].tokens, ts) >= cfg.threshold then
      var h := leaf[Best(s.vals, leaf, ts, |leaf|)];
      Answer(Absorbed(s, h, ts), h, false)
    else Answer(Minted(cfg, s, ts), |s.vals|, true)
  }

  /** The answer is decided by the most similar cluster of the leaf. */
  lemma BestDecides(cfg: Config, s: State, ts: Tokens)
    requires WellFormed(cfg, s)
    ensures LeafOk(cfg, s, KeyOf(cfg, ts))
    ensures var leaf, r := Leaf(s, KeyOf(cfg, ts)), ClusterStep(cfg, s, ts);
            if leaf == [] then r.isNew
            else var h := leaf[Best(s.vals, leaf, ts, |leaf|)];
                 (r.isNew <==> Similarity(s.vals[h].tokens, ts) < cfg.threshold) && (!r.isNew ==> r.handle == h)
  {
    assert LeafOk(cfg, s, KeyOf(cfg, ts));
  }

  /** A message answered "new" got the cluster minted from it, unless it was evicted. */
  lemma MintedAnswer(cfg: Config, s: State, ts: Tokens)
    requires WellFormed(cfg, s) && ClusterStep(cfg, s, ts).isNew
    ensures ClusterStep(cfg, s, ts) == Answer(Minted(cfg, s, ts), |s.vals|, true)
    ensures Minted(cfg, s, ts).vals == s.vals + [MintedCluster(cfg, ts)]
  {
  }

  /** One AddCluster call: no similarity search, no eviction, the ID map overwritten. */
  function AddStep(cfg: Config, s: State, id: string, ts: Tokens, size: nat): State
  {
    Appended(cfg, s, Cluster(id, ts, size, [ts])).(index := s.index[id := |s.vals|])
  }

  ghost predicate LeafOk(cfg: Config, s: State, k: LeafKey)
  {
    && NoRepeat(Leaf(s, k))
    && forall i :: 0 <= i < |Leaf(s, k)| ==> Leaf(s, k)[i] < |s.vals| && KeyOf(cfg, s.vals[Leaf(s, k)[i]].tokens) == k
  }

  // ---- every step keeps well-formedness ---------------------------------------------

  /** Merging two templates of one leaf stays in that leaf, and stays normal. */
  lemma MergeKeepsLeaf(cfg: Config, a: Tokens, b: Tokens)
    requires Normal(a, cfg.isVariable) && Normal(b, cfg.isVariable) && KeyOf(cfg, a) == KeyOf(cfg, b)
    ensures KeyOf(cfg, Merge(a, b)) == KeyOf(cfg, a) && Normal(Merge(a, b), cfg.isVariable)
  {
    var m := Merge(a, b);
    forall t | t in m ensures Clean(t) && (t == WILDCARD || !cfg.isVariable(t)) {
      var i :| 0 <= i < |m| && m[i] == t;
      assert a[i] in a;
      assert Plain(WILDCARD);
    }
    forall i | 0 <= i < PathLen(cfg, |a|) ensures m[i] == a[i] {
      assert KeyOf(cfg, a).1[i] == KeyOf(cfg, b).1[i];
    }
    assert KeyOf(cfg, m).1 == KeyOf(cfg, a).1;
  }

  lemma AppendedWellFormed(cfg: Config, s: State, c: Cluster)
    requires WellFormed(cfg, s) && Normal(c.tokens, cfg.isVariable)
    ensures WellFormed(cfg, Appended(cfg, s, c))
  {
    var a := Appended(cfg, s, c);
    forall k | k in a.leaves ensures LeafFits(cfg, a, k) && NoRepeat(a.leaves[k]) {
      if k in s.leaves { assert LeafFits(cfg, s, k) && NoRepeat(s.leaves[k]); }
    }
  }

  lemma WithoutKeeps(leaf: seq<nat>, m: nat)
    requires m < |leaf| && NoRepeat(leaf)
    ensures NoRepeat(Without(leaf, m))
    ensures forall h :: h in Without(leaf, m) <==> h in leaf && h != leaf[m]
  {
    var r := Without(leaf, m);
    forall h ensures h in r <==> h in leaf && h != leaf[m] {
      if h in r {
        var i :| 0 <= i < |r| && r[i] == h;
        assert h == leaf[if i < m then i else i + 1];
      }
      if h in leaf && h != leaf[m] {
        var i :| 0 <= i < |leaf| && leaf[i] == h;
        assert r[if i < m then i else i - 1] == h;
      }
    }
  }

  lemma ShrunkWellFormed(cfg: Config, a: State, k: LeafKey, m: nat)
    requires WellFormed(cfg, a) && k in a.leaves && m < |a.leaves[k]|
    ensures WellFormed(cfg, Shrunk(a, k, m))
  {
    assert LeafFits(cfg, a, k) && NoRepeat(a.leaves[k]);
    var r := Shrunk(a, k, m);
    WithoutKeeps(a.leaves[k], m);
    forall j | j in r.leaves ensures LeafFits(cfg, r, j) && NoRepeat(r.leaves[j]) {
      assert LeafFits(cfg, a, j) && NoRepeat(a.leaves[j]);
      if j == k {
        forall i | 0 <= i < |r.leaves[k]| ensures r.leaves[k][i] in a.leaves[k] {
          assert r.leaves[k][i] in r.leaves[k];
        }
      }
    }
  }

  lemma UnregisteredWellFormed(cfg: Config, a: State, id: string)
    requires WellFormed(cfg, a)
    ensures WellFormed(cfg, Unregistered(a, id))
  {
    var r := Unregistered(a, id);
    forall j | j in r.leaves ensures LeafFits(cfg, r, j) && NoRepeat(r.leaves[j]) {
      assert LeafFits(cfg, a, j) && NoRepeat(a.leaves[j]);
    }
  }

  lemma EvictWellFormed(cfg: Config, a: State, k: LeafKey)
    requires WellFormed(cfg, a) && k in a.leaves && a.leaves[k] != []
    ensures LeafFits(cfg, a, k)
    ensures WellFormed(cfg, Evict(a, k))
  {
    assert LeafFits(cfg, a, k);
    var m := Smallest(a.vals, a.leaves[k], |a.leaves[k]|);
    ShrunkWellFormed(cfg, a, k, m);
    UnregisteredWellFormed(cfg, Shrunk(a, k, m), a.vals[a.leaves[k][m]].id);
  }

  lemma RegisterWellFormed(cfg: Config, e: State, id: string, h: nat)
    requires WellFormed(cfg, e) && h < |e.vals|
    ensures WellFormed(cfg, e.(index := e.index[id := h]))
  {
    var r := e.(index := e.index[id := h]);
    forall j | j in r.leaves ensures LeafFits(cfg, r, j) && NoRepeat(r.leaves[j]) {
      assert LeafFits(cfg, e, j) && NoRepeat(e.leaves[j]);
    }
  }

  lemma CrowdedWellFormed(cfg: Config, s: State, ts: Tokens)
    requires WellFormed(cfg, s) && Normal(ts, cfg.isVariable)
    ensures WellFormed(cfg, Crowded(cfg, s, ts))
  {
    var a := Appended(cfg, s, MintedCluster(cfg, ts));
    AppendedWellFormed(cfg, s, MintedCluster(cfg, ts));
    if |Leaf(a, KeyOf(cfg, ts))| > cfg.maxChildren { EvictWellFormed(cfg, a, KeyOf(cfg, ts)); }
  }

  lemma CrowdedVals(cfg: Config, s: State, ts: Tokens)
    requires WellFormed(cfg, s)
    ensures Crowded(cfg, s, ts).vals == s.vals + [MintedCluster(cfg, ts)]
  {
  }

  lemma MintedWellFormed(cfg: Config, s: State, ts: Tokens)
    requires WellFormed(cfg, s) && Normal(ts, cfg.isVariable)
    ensures WellFormed(cfg, Minted(cfg, s, ts))
  {
    CrowdedWellFormed(cfg, s, ts);
    CrowdedVals(cfg, s, ts);
    RegisterWellFormed(cfg, Crowded(cfg, s, ts), NewId(cfg, ts), |s.vals|);
  }

  lemma AbsorbedWellFormed(cfg: Config, s: State, k: LeafKey, h: nat, ts: Tokens)
    requires WellFormed(cfg, s) && Normal(ts, cfg.isVariable) && KeyOf(cfg, ts) == k && h < |s.vals|
    requires KeyOf(cfg, s.vals[h].tokens) == k
    ensures WellFormed(cfg, Absorbed(s, h, ts))
  {
    var r := Absorbed(s, h, ts);
    MergeKeepsLeaf(cfg, s.vals[h].tokens, ts);
    forall j | j in r.leaves ensures LeafFits(cfg, r, j) && NoRepeat(r.leaves[j]) {
      assert LeafFits(cfg, s, j) && NoRepeat(s.leaves[j]);
    }
  }

  /** A message not answered "new" was merged into the template of the answer's cluster. */
  lemma MatchedAnswer(cfg: Config, s: State, ts: Tokens)
    requires WellFormed(cfg, s) && Normal(ts, cfg.isVariable) && !ClusterStep(cfg, s, ts).isNew
    ensures var r := ClusterStep(cfg, s, ts);
            && r.handle in Leaf(s, KeyOf(cfg, ts)) && r.handle < |s.vals| && |s.vals[r.handle].tokens| == |ts|
            && r.state == Absorbed(s, r.handle, ts) && WellFormed(cfg, r.state)
  {
    assert LeafOk(cfg, s, KeyOf(cfg, ts));
    AbsorbedWellFormed(cfg, s, KeyOf(cfg, ts), ClusterStep(cfg, s, ts).handle, ts);
  }

  lemma StepWellFormed(cfg: Config, s: State, ts: Tokens)
    requires WellFormed(cfg, s) && Normal(ts, cfg.isVariable)
    ensures WellFormed(cfg, ClusterStep(cfg, s, ts).state)
  {
    if ClusterStep(cfg, s, ts).isNew {
      MintedWellFormed(cfg, s, ts);
    } else {
      MatchedAnswer(cfg, s, ts);
    }
  }

  lemma AddWellFormed(cfg: Config, s: State, id: string, ts: Tokens, size: nat)
    requires WellFormed(cfg, s) && Normal(ts, cfg.isVariable)
    ensures WellFormed(cfg, AddStep(cfg, s, id, ts, size))
  {
    var a := Appended(cfg, s, Cluster(id, ts, size, [ts]));
    AppendedWellFormed(cfg, s, Cluster(id, ts, size, [ts]));
    var r := AddStep(cfg, s, id, ts, size);
    forall k | k in r.leaves ensures LeafFits(cfg, r, k) && NoRepeat(r.leaves[k]) {
      assert LeafFits(cfg, a, k) && NoRepeat(a.leaves[k]);
    }
  }

  /** A message is answered "new" exactly when no cluster of its leaf is similar enough. */
  lemma NewIffUnmatched(cfg: Config, s: State, ts: Tokens)
    requires WellFormed(cfg, s)
    ensures ClusterStep(cfg, s, ts).isNew <==> !Matched(cfg, s, ts)
  {
    var leaf := Leaf(s, KeyOf(cfg, ts));
    assert LeafOk(cfg, s, KeyOf(cfg, ts));
    if leaf != [] {
      var b := Best(s.vals, leaf, ts, |leaf|);
      assert 0 <= b < |leaf|;
    }
  }
}
