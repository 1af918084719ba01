/** The drain miner on the heap: a prefix tree of nodes by token count and leading
    tokens, leaves holding cluster objects, and a map from cluster ID to the same
    objects. Every method is proved to take the step of MinerSpec. */
module Miner {
  import opened Tokenizer
  import opened Templates
  import opened MinerSpec
  import opened MinerShape

  class MinerCluster {
    const ID: string
    var Tokens: seq<string>
    var Size: nat

    constructor (id: string, tokens: seq<string>, size: nat)
      ensures ID == id && Tokens == tokens && Size == size
    {
      ID, Tokens, Size := id, tokens, size;
    }
  }

  class MinerNode {
    var children: map<string, MinerNode>
    var clusters: seq<MinerCluster>

    constructor ()
      ensures children == map[] && clusters == []
    {
      children, clusters := map[], [];
    }
  }

  ghost predicate Holds(clusters: seq<MinerCluster>, objs: seq<MinerCluster>, handles: seq<nat>)
  {
    |clusters| == |handles| && forall i :: 0 <= i < |handles| ==> handles[i] < |objs| && clusters[i] == objs[handles[i]]
  }

  lemma HoldsAppend(clusters: seq<MinerCluster>, objs: seq<MinerCluster>, handles: seq<nat>, c: MinerCluster)
    requires Holds(clusters, objs, handles)
    ensures Holds(clusters + [c], objs + [c], handles + [|objs|])
  {
  }

  lemma HoldsWithout(clusters: seq<MinerCluster>, objs: seq<MinerCluster>, handles: seq<nat>, m: nat)
    requires Holds(clusters, objs, handles) && m < |handles|
    ensures Holds(clusters[..m] + clusters[m + 1..], objs, Without(handles, m))
  {
  }

  twostate predicate Extends(before: seq<object>, new now: seq<object>)
  {
    before <= now && forall i :: |before| <= i < |now| ==> fresh(now[i])
  }

  /** Cluster objects that carry the values of these handles. */
  ghost predicate Reflects(cs: seq<MinerCluster>, vals: seq<MinerSpec.Cluster>, hs: seq<nat>)
    reads cs
  {
    && |cs| == |hs|
    && forall i :: 0 <= i < |cs| ==>
      hs[i] < |vals| && cs[i].Tokens == vals[hs[i]].tokens && cs[i].Size == vals[hs[i]].size
  }

  /** The first most similar cluster of a leaf. */
  method MostSimilar(cs: seq<MinerCluster>, ts: seq<string>, ghost vals: seq<MinerSpec.Cluster>, ghost hs: seq<nat>)
    returns (found: MinerCluster?, best: real)
    requires Reflects(cs, vals, hs)
    ensures if hs == [] then found == null
            else var b := Best(vals, hs, ts, |hs|); found == cs[b] && best == Similarity(vals[hs[b]].tokens, ts)
  {
    found, best := null, -1.0;
    ghost var b := 0;
    for i := 0 to |cs|
      invariant i == 0 ==> found == null && best == -1.0
      invariant i > 0 ==> b == Best(vals, hs, ts, i) && found == cs[b] && best == Similarity(vals[hs[b]].tokens, ts)
    {
      var sim := TokenSimilarity(cs[i].Tokens, ts);
      if sim > best {
        found, best, b := cs[i], sim, i;
      }
    }
  }

  /** The position of the first smallest cluster of a leaf. */
  method SmallestIn(cs: seq<MinerCluster>, ghost vals: seq<MinerSpec.Cluster>, ghost hs: seq<nat>) returns (minIdx: nat)
    requires Reflects(cs, vals, hs) && cs != []
    ensures minIdx == Smallest(vals, hs, |hs|)
  {
    minIdx := 0;
    for i := 0 to |cs|
      invariant minIdx == if i == 0 then 0 else Smallest(vals, hs, i)
    {
      if cs[i].Size < cs[minIdx].Size {
        minIdx := i;
      }
    }
  }

  class Miner {
    const cfg: Config
    var tree: map<nat, MinerNode>
    var clusters: map<string, MinerCluster>
    /** Every tree node and the shape it forms, every cluster ever made by its handle,
        and the abstract state. */
    ghost var nodes: seq<MinerNode>
    ghost var shape: Shape
    ghost var objs: seq<MinerCluster>
    ghost var st: State

    /** Node `i` points at the nodes of its children in the shape. */
    ghost predicate Linked(i: nat)
      requires ShapeOk(shape) && |nodes| == |shape.paths| && i < |nodes|
      reads this, nodes[i]
    {
      && nodes[i].children.Keys == shape.kids[i].Keys
      && forall key <- shape.kids[i] :: KidAt(shape, i, key) && nodes[i].children[key] == nodes[shape.kids[i][key]]
    }

    ghost predicate TreeValid()
      reads this, nodes
    {
      && ShapeOk(shape) && |nodes| == |shape.paths| && Distinct(nodes)
      && tree.Keys == shape.roots.Keys
      && (forall n <- tree :: RootAt(shape, n) && tree[n] == nodes[shape.roots[n]])
      && (forall i {:trigger Linked(i)} :: 0 <= i < |nodes| ==> Linked(i))
    }

    /** A node holds the objects of its leaf's handles, in order; inner nodes none. */
    ghost predicate HoldsLeaf(i: nat)
      requires i < |nodes| == |shape.paths|
      reads this, nodes[i]
    {
      Holds(nodes[i].clusters, objs, Leaf(st, KeyAt(shape.paths[i])))
    }

    /** The tree is well linked and every leaf of the abstract state is held by its node. */
    ghost predicate TreeHolds()
      reads this, nodes
    {
      && TreeValid()
      && (forall k <- st.leaves :: Placed(shape.paths, k))
      && (forall i {:trigger HoldsLeaf(i)} :: 0 <= i < |nodes| ==> HoldsLeaf(i))
    }

    ghost predicate ObjectsValid()
      reads this, objs
    {
      && |objs| == |st.vals| && Distinct(objs)
      && (forall h :: 0 <= h < |objs| ==>
        objs[h].ID == st.vals[h].id && objs[h].Tokens == st.vals[h].tokens && objs[h].Size == st.vals[h].size)
    }

    ghost predicate IndexValid()
      reads this
    {
      && clusters.Keys == st.index.Keys
      && forall id <- clusters :: st.index[id] < |objs| && clusters[id] == objs[st.index[id]]
    }

    ghost predicate Valid()
      reads this, nodes, objs
    {
      ValidConfig(cfg) && WellFormed(cfg, st) && TreeHolds() && ObjectsValid() && IndexValid()
    }

    /** NewMiner: non-positive settings take their defaults. */
    constructor (similarityThreshold: real, depth: int, maxChildren: int, isVariable: string -> bool,
                 hash: string -> string)
      ensures Valid() && st == EMPTY && nodes == [] && objs == []
      ensures cfg == Config(if similarityThreshold <= 0.0 then 0.4 else similarityThreshold,
                            if depth <= 0 then 4 else depth, if maxChildren <= 0 then 100 else maxChildren,
                            isVariable, hash)
    {
      cfg := Config(if similarityThreshold <= 0.0 then 0.4 else similarityThreshold,
                    if depth <= 0 then 4 else depth, if maxChildren <= 0 then 100 else maxChildren, isVariable, hash);
      tree, clusters := map[], map[];
      nodes, shape, objs, st := [], Shape([], map[], []), [], EMPTY;
    }

    /** Forget every template; configuration is kept. */
    method Reset()
      requires Valid()
      modifies this
      ensures Valid() && st == EMPTY && nodes == [] && objs == []
    {
      tree, clusters := map[], map[];
      nodes, shape, objs, st := [], Shape([], map[], []), [], EMPTY;
    }

    /** What a call answered: the new state, and the ID and template of the answer's cluster. */
    ghost predicate Answered(r: Answer, id: string, template: string, isNew: bool)
      reads this
    {
      && st == r.state && isNew == r.isNew && r.handle < |st.vals|
      && id == st.vals[r.handle].id && template == Join(st.vals[r.handle].tokens)
    }

    /** Nodes and clusters are those from before, then new ones. */
    twostate predicate Owned()
      reads this
    {
      Extends(old(nodes), nodes) && Extends(old(objs), objs)
    }

    /** Classify a message: merge into the most similar template of its leaf, or learn
        a new one and evict the smallest when the leaf overflows. */
    method Cluster(message: string) returns (id: string, template: string, isNew: bool)
      requires Valid()
      modifies this, nodes, objs
      ensures Valid() && Owned()
      ensures var ts := Tokenize(message, cfg.isVariable);
              if ts == [] then id == template == "" && !isNew && st == old(st)
              else Answered(ClusterStep(cfg, old(st), ts), id, template, isNew)
    {
      var tokens := Tokenize(message, cfg.isVariable);
      TokenizeIsNormal(message, cfg.isVariable);
      if |tokens| == 0 {
        return "", "", false;
      }
      id, template, isNew := ClusterTokens(tokens);
    }

    method ClusterTokens(tokens: seq<string>) returns (id: string, template: string, isNew: bool)
      requires Valid() && Normal(tokens, cfg.isVariable)
      modifies this, nodes, objs
      ensures Valid() && Owned()
      ensures Answered(ClusterStep(cfg, old(st), tokens), id, template, isNew)
    {
      var leaf, p := LeafFor(tokens);
      id, template, isNew := Classify(leaf, p, tokens);
    }

    method Classify(leaf: MinerNode, ghost p: nat, tokens: seq<string>)
      returns (id: string, template: string, isNew: bool)
      requires Valid() && Normal(tokens, cfg.isVariable)
      requires p < |nodes| && leaf == nodes[p] && KeyAt(shape.paths[p]) == KeyOf(cfg, tokens)
      modifies this`st, this`objs, this`clusters, leaf`clusters, objs
      ensures Valid() && Extends(old(objs), objs)
      ensures Answered(ClusterStep(cfg, old(st), tokens), id, template, isNew)
    {
      var found, best := Nearest(leaf, p, tokens);
      if found != null && best >= cfg.threshold {
        MatchedAnswer(cfg, st, tokens);
        Absorb(found, ClusterStep(cfg, st, tokens).handle, tokens);
        return found.ID, Join(found.Tokens), false;
      }
      id := Learn(leaf, p, tokens);
      return id, Join(tokens), true;
    }

    /** Put a known cluster back, as when a stored catalog is loaded. */
    method AddCluster(id: string, template: string, size: nat)
      requires Valid()
      modifies this, nodes
      ensures Valid() && Owned() && st == AddStep(cfg, old(st), id, Tokenize(template, cfg.isVariable), size)
    {
      var tokens := Tokenize(template, cfg.isVariable);
      TokenizeIsNormal(template, cfg.isVariable);
      var cl := new MinerCluster(id, tokens, size);
      var leaf, p := LeafFor(tokens);
      Seat(leaf, p, cl);
    }

    /** A seed goes to the end of its leaf and is entered under its ID; nothing is evicted. */
    method Seat(leaf: MinerNode, ghost p: nat, c: MinerCluster)
      requires Valid() && c !in objs && Normal(c.Tokens, cfg.isVariable)
      requires p < |nodes| && leaf == nodes[p] && KeyAt(shape.paths[p]) == KeyOf(cfg, c.Tokens)
      modifies this`st, this`objs, this`clusters, leaf`clusters
      ensures Valid() && objs == old(objs) + [c] && st == AddStep(cfg, old(st), c.ID, c.Tokens, c.Size)
    {
      Append(leaf, p, c, [c.Tokens]);
      Register(c, |objs| - 1);
    }

    /** The leaf of a token list, built when missing; the abstract state does not change. */
    method LeafFor(ts: seq<string>) returns (leaf: MinerNode, ghost p: nat)
      requires Valid() && Normal(ts, cfg.isVariable)
      modifies this`tree, this`nodes, this`shape, nodes`children
      ensures Valid() && p < |nodes| && leaf == nodes[p] && KeyAt(shape.paths[p]) == KeyOf(cfg, ts)
      ensures Extends(old(nodes), nodes) && (leaf in old(nodes) || fresh(leaf))
    {
      leaf, p := Descend(ts);
      forall k | k in st.leaves ensures Placed(shape.paths, k) {
        var j :| 0 <= j < |old(shape.paths)| && KeyAt(old(shape.paths)[j]) == k;
        assert shape.paths[j] == old(shape.paths)[j];
      }
      forall i | 0 <= i < |nodes| ensures HoldsLeaf(i) {
        if i < |old(nodes)| {
          assert old(HoldsLeaf(i));
        } else {
          NewLeafIsEmpty(old(shape.paths), i);
        }
      }
    }

    lemma NewLeafIsEmpty(paths: seq<Path>, i: nat)
      requires |paths| <= i < |shape.paths| && paths <= shape.paths && Distinct(shape.paths)
      requires forall k <- st.leaves :: Placed(paths, k)
      ensures Leaf(st, KeyAt(shape.paths[i])) == []
    {
      var k := KeyAt(shape.paths[i]);
      if k in st.leaves {
        var j :| 0 <= j < |paths| && KeyAt(paths[j]) == k;
        KeyAtInjective(shape.paths[i], shape.paths[j]);
        assert false;
      }
    }

    /** The most similar cluster of the leaf of a message decides the answer. */
    method Nearest(leaf: MinerNode, ghost p: nat, ts: seq<string>) returns (found: MinerCluster?, best: real)
      requires Valid() && p < |nodes| && leaf == nodes[p] && KeyAt(shape.paths[p]) == KeyOf(cfg, ts)
      ensures var r := ClusterStep(cfg, st, ts);
              if r.isNew then found == null || best < cfg.threshold
              else best >= cfg.threshold && r.handle < |objs| && found == objs[r.handle]
    {
      LeafReflects(p);
      BestDecides(cfg, st, ts);
      found, best := MostSimilar(leaf.clusters, ts, st.vals, Leaf(st, KeyOf(cfg, ts)));
    }

    /** Merge a message into the template that matched it. */
    method Absorb(c: MinerCluster, ghost h: nat, ts: seq<string>)
      requires Valid() && Normal(ts, cfg.isVariable) && h < |objs| && c == objs[h]
      requires |st.vals[h].tokens| == |ts| && WellFormed(cfg, Absorbed(st, h, ts))
      modifies this`st, c
      ensures Valid() && st == Absorbed(old(st), h, ts) && c.ID == st.vals[h].id && c.Tokens == st.vals[h].tokens
    {
      c.Tokens := MergeTemplates(c.Tokens, ts);
      c.Size := c.Size + 1;
      st := Absorbed(st, h, ts);
      KeepLeaves();
    }

    /** Put a cluster object at the end of its leaf. */
    method Append(leaf: MinerNode, ghost p: nat, c: MinerCluster, ghost absorbed: seq<Tokens>)
      requires Valid() && c !in objs && Normal(c.Tokens, cfg.isVariable)
      requires p < |nodes| && leaf == nodes[p] && KeyAt(shape.paths[p]) == KeyOf(cfg, c.Tokens)
      modifies this`st, this`objs, leaf`clusters
      ensures Valid() && objs == old(objs) + [c]
      ensures LeafOk(cfg, st, KeyOf(cfg, c.Tokens)) && KeyOf(cfg, c.Tokens) in st.leaves
      ensures |Leaf(st, KeyOf(cfg, c.Tokens))| == |leaf.clusters|
      ensures st == Appended(cfg, old(st), MinerSpec.Cluster(c.ID, c.Tokens, c.Size, absorbed))
    {
      AppendedWellFormed(cfg, st, MinerSpec.Cluster(c.ID, c.Tokens, c.Size, absorbed));
      ghost var k := KeyAt(shape.paths[p]);
      assert HoldsLeaf(p);
      HoldsAppend(leaf.clusters, objs, Leaf(st, k), c);
      leaf.clusters := leaf.clusters + [c];
      objs := objs + [c];
      st := Appended(cfg, st, MinerSpec.Cluster(c.ID, c.Tokens, c.Size, absorbed));
      KeepOtherLeaves(p);
      assert LeafFits(cfg, st, k) && HoldsLeaf(p);
    }

    /** Drop the smallest cluster of a leaf and its entry in the map. */
    method EvictSmallest(leaf: MinerNode, ghost p: nat)
      requires Valid() && p < |nodes| && leaf == nodes[p] && KeyAt(shape.paths[p]) in st.leaves && leaf.clusters != []
      requires LeafOk(cfg, st, KeyAt(shape.paths[p])) && |Leaf(st, KeyAt(shape.paths[p]))| == |leaf.clusters|
      modifies this`st, this`clusters, leaf`clusters
      ensures Valid() && st == Evict(old(st), KeyAt(shape.paths[p])) && objs == old(objs)
    {
      LeafReflects(p);
      var minIdx := SmallestIn(leaf.clusters, st.vals, Leaf(st, KeyAt(shape.paths[p])));
      Drop(leaf, p, minIdx);
    }

    /** Drop the cluster at a position of a leaf and its entry in the map. */
    method Drop(leaf: MinerNode, ghost p: nat, m: nat)
      requires Valid() && p < |nodes| && leaf == nodes[p] && m < |leaf.clusters| == |Leaf(st, KeyAt(shape.paths[p]))|
      requires LeafOk(cfg, st, KeyAt(shape.paths[p])) && KeyAt(shape.paths[p]) in st.leaves
      modifies this`st, this`clusters, leaf`clusters
      ensures Valid() && st == Dropped(old(st), KeyAt(shape.paths[p]), m)
    {
      LeafReflects(p);
      var evicted := leaf.clusters[m];
      Shrink(leaf, p, m);
      Unregister(evicted.ID);
    }

    /** Take the cluster at a position out of its leaf. */
    method Shrink(leaf: MinerNode, ghost p: nat, m: nat)
      requires Valid() && p < |nodes| && leaf == nodes[p] && m < |leaf.clusters| == |Leaf(st, KeyAt(shape.paths[p]))|
      requires KeyAt(shape.paths[p]) in st.leaves
      modifies this`st, leaf`clusters
      ensures Valid() && st == Shrunk(old(st), KeyAt(shape.paths[p]), m)
    {
      ghost var k := KeyAt(shape.paths[p]);
      ShrunkWellFormed(cfg, st, k, m);
      assert HoldsLeaf(p);
      HoldsWithout(leaf.clusters, objs, Leaf(st, k), m);
      leaf.clusters := leaf.clusters[..m] + leaf.clusters[m + 1..];
      st := Shrunk(st, k, m);
      KeepOtherLeaves(p);
    }

    /** Delete an entry of the ID map. */
    method Unregister(id: string)
      requires Valid()
      modifies this`clusters, this`st
      ensures Valid() && st == Unregistered(old(st), id)
    {
      UnregisteredWellFormed(cfg, st, id);
      clusters := clusters - {id};
      st := Unregistered(st, id);
      KeepLeaves();
    }

    /** Enter a cluster object in the ID map. */
    method Register(c: MinerCluster, ghost h: nat)
      requires Valid() && h < |objs| && c == objs[h]
      modifies this`clusters, this`st
      ensures Valid() && st == old(st).(index := old(st).index[c.ID := h])
    {
      RegisterWellFormed(cfg, st, c.ID, h);
      clusters := clusters[c.ID := c];
      st := st.(index := st.index[c.ID := h]);
      KeepLeaves();
    }

    /** The answer to a message no cluster is similar to. */
    method Learn(leaf: MinerNode, ghost p: nat, ts: seq<string>) returns (id: string)
      requires Valid() && Normal(ts, cfg.isVariable) && ClusterStep(cfg, st, ts).isNew
      requires p < |nodes| && leaf == nodes[p] && KeyAt(shape.paths[p]) == KeyOf(cfg, ts)
      modifies this`st, this`objs, this`clusters, leaf`clusters
      ensures Valid() && Extends(old(objs), objs) && Answered(ClusterStep(cfg, old(st), ts), id, Join(ts), true)
    {
      MintedAnswer(cfg, st, ts);
      id := Mint(leaf, p, ts);
    }

    /** Make a new template in its leaf, evicting when the leaf overflows. */
    method Mint(leaf: MinerNode, ghost p: nat, ts: seq<string>) returns (id: string)
      requires Valid() && Normal(ts, cfg.isVariable)
      requires p < |nodes| && leaf == nodes[p] && KeyAt(shape.paths[p]) == KeyOf(cfg, ts)
      modifies this`st, this`objs, this`clusters, leaf`clusters
      ensures Valid() && Extends(old(objs), objs) && st == Minted(cfg, old(st), ts) && id == NewId(cfg, ts)
    {
      var c := new MinerCluster(cfg.hash(Join(ts)), ts, 1);
      Enter(leaf, p, c);
      Register(c, |objs| - 1);
      id := c.ID;
    }

    /** Append a new cluster and evict the smallest when the leaf overflows. */
    method Enter(leaf: MinerNode, ghost p: nat, c: MinerCluster)
      requires Valid() && c !in objs && Normal(c.Tokens, cfg.isVariable) && c.ID == NewId(cfg, c.Tokens) && c.Size == 1
      requires p < |nodes| && leaf == nodes[p] && KeyAt(shape.paths[p]) == KeyOf(cfg, c.Tokens)
      modifies this`st, this`objs, this`clusters, leaf`clusters
      ensures Valid() && objs == old(objs) + [c] && st == Crowded(cfg, old(st), c.Tokens)
    {
      Append(leaf, p, c, [c.Tokens]);
      assert st == Appended(cfg, old(st), MintedCluster(cfg, c.Tokens));
      if |leaf.clusters| > cfg.maxChildren {
        EvictSmallest(leaf, p);
      }
    }

    lemma LeafReflects(p: nat)
      requires Valid() && p < |nodes|
      ensures |Leaf(st, KeyAt(shape.paths[p]))| == |nodes[p].clusters|
      ensures forall i :: 0 <= i < |nodes[p].clusters| ==>
        Leaf(st, KeyAt(shape.paths[p]))[i] < |objs| && nodes[p].clusters[i] == objs[Leaf(st, KeyAt(shape.paths[p]))[i]]
      ensures Reflects(nodes[p].clusters, st.vals, Leaf(st, KeyAt(shape.paths[p])))
    {
      assert HoldsLeaf(p);
    }

    /** The tree is as before, and clusters were at most added. */
    twostate predicate SameTree()
      reads this, nodes
    {
      && nodes == old(nodes) && shape == old(shape) && tree == old(tree)
      && old(objs) <= objs
      && (forall i :: 0 <= i < |nodes| ==> nodes[i].children == old(nodes[i].children))
    }

    /** Changing what leaves hold leaves the links of the tree alone. */
    twostate lemma KeepTree()
      requires old(TreeValid()) && SameTree()
      ensures TreeValid()
    {
      forall i | 0 <= i < |nodes| ensures Linked(i) { assert old(Linked(i)); }
    }

    twostate lemma KeepLeaves()
      requires old(TreeHolds()) && SameTree() && st.leaves == old(st).leaves
      requires forall i :: 0 <= i < |nodes| ==> nodes[i].clusters == old(nodes[i].clusters)
      ensures TreeHolds()
    {
      KeepTree();
      forall i | 0 <= i < |nodes| ensures HoldsLeaf(i) { assert old(HoldsLeaf(i)); }
    }

    /** Changing one leaf, in the state and in its node, leaves the others alone. */
    twostate lemma KeepOtherLeaves(p: nat)
      requires old(TreeHolds()) && SameTree() && p < |nodes|
      requires forall i :: 0 <= i < |nodes| && i != p ==> nodes[i].clusters == old(nodes[i].clusters)
      requires st.leaves == old(st).leaves[KeyAt(shape.paths[p]) := Leaf(st, KeyAt(shape.paths[p]))] && HoldsLeaf(p)
      ensures TreeHolds()
    {
      KeepTree();
      forall i | 0 <= i < |nodes| ensures HoldsLeaf(i) {
        assert old(HoldsLeaf(i));
        if i != p { KeysDiffer(shape.paths, i, p); }
      }
      assert Placed(shape.paths, KeyAt(shape.paths[p]));
    }

    /** The nodes before are still in place with their paths; the others are new and empty. */
    twostate predicate Grown(before: seq<MinerNode>, paths: seq<Path>)
      reads this, nodes
    {
      && |before| == |paths| && |nodes| == |shape.paths| && before <= nodes && paths <= shape.paths
      && (forall i :: |before| <= i < |nodes| ==> fresh(nodes[i]) && nodes[i].clusters == [])
    }

    /** Walk from the token count along the leading keys, building missing nodes. */
    method Descend(ts: seq<string>) returns (leaf: MinerNode, ghost p: nat)
      requires TreeValid() && Normal(ts, cfg.isVariable)
      modifies this`tree, this`nodes, this`shape, nodes`children
      ensures TreeValid() && Grown(old(nodes), old(shape.paths))
      ensures p < |nodes| && leaf == nodes[p] && Reached(shape.paths[p], ts, PathLen(cfg, |ts|))
    {
      leaf, p := Root(|ts|);
      var i := 0;
      while i < cfg.depth && i < |ts|
        invariant i <= |ts| && i <= cfg.depth
        invariant TreeValid() && Grown(old(nodes), old(shape.paths))
        invariant p < |nodes| && leaf == nodes[p] && Reached(shape.paths[p], ts, i)
      {
        leaf, p := Advance(p, leaf, ts, i);
        i := i + 1;
      }
    }

    /** One level down, under the wildcard when the token is a wildcard or a variable. */
    method Advance(ghost p: nat, parent: MinerNode, ts: seq<string>, i: nat) returns (node: MinerNode, ghost j: nat)
      requires TreeValid() && p < |nodes| && parent == nodes[p] && i < |ts| && i < cfg.depth
      requires Normal(ts, cfg.isVariable) && Reached(shape.paths[p], ts, i)
      modifies this`nodes, this`shape, parent`children
      ensures TreeValid() && Grown(old(nodes), old(shape.paths))
      ensures j < |nodes| && node == nodes[j] && Reached(shape.paths[j], ts, i + 1)
    {
      var key := ts[i];
      if key == WILDCARD || cfg.isVariable(key) {
        key := WILDCARD;
      }
      NextReached(cfg, shape.paths[p], ts, i);
      node, j := Step(p, parent, key);
    }

    /** The root for a token count, made when missing. */
    method Root(n: nat) returns (node: MinerNode, ghost i: nat)
      requires TreeValid()
      modifies this`tree, this`nodes, this`shape
      ensures TreeValid() && Grown(old(nodes), old(shape.paths))
      ensures i < |nodes| && node == nodes[i] && shape.paths[i] == Top(n)
    {
      if n in tree {
        return tree[n], shape.roots[n];
      }
      node := new MinerNode();
      i := |nodes|;
      AddRootOk(shape, n);
      tree := tree[n := node];
      nodes, shape := nodes + [node], AddRoot(shape, n);
      forall j | 0 <= j < |nodes| ensures Linked(j) {
        if j < i { assert old(Linked(j)); }
      }
    }

    /** The child of a node under a key, made when missing. */
    method Step(ghost p: nat, parent: MinerNode, key: string) returns (node: MinerNode, ghost i: nat)
      requires TreeValid() && p < |nodes| && parent == nodes[p]
      modifies this`nodes, this`shape, parent`children
      ensures TreeValid() && Grown(old(nodes), old(shape.paths))
      ensures i < |nodes| && node == nodes[i] && shape.paths[i] == Sub(old(shape.paths[p]), key)
    {
      assert Linked(p);
      if key in parent.children {
        assert KidAt(shape, p, key);
        return parent.children[key], shape.kids[p][key];
      }
      node := new MinerNode();
      i := |nodes|;
      AddKidOk(shape, p, key);
      parent.children := parent.children[key := node];
      nodes, shape := nodes + [node], AddKid(shape, p, key);
      forall j | 0 <= j < |nodes| ensures Linked(j) {
        if j < i { assert old(Linked(j)); }
      }
    }
  }
}
