/** The shape of the miner's prefix tree, apart from the nodes themselves: node `i` has
    the path `paths[i]`, `roots` names the root of each token count, and `kids[i]` the
    children of node `i`. */
module MinerShape {
  import opened Tokenizer
  import opened MinerSpec

  /** A place in the tree: the root for a token count, or the place under a key. */
  datatype Path = Top(n: nat) | Sub(parent: Path, key: string)

  function KeyAt(p: Path): LeafKey
  {
    match p
    case Top(n) => (n, [])
    case Sub(q, key) => (KeyAt(q).0, KeyAt(q).1 + [key])
  }

  /** No two places share a key path. */
  lemma {:induction false} KeyAtInjective(p: Path, q: Path)
    requires KeyAt(p) == KeyAt(q)
    ensures p == q
  {
    match (p, q)
    case (Sub(a, x), Sub(b, y)) =>
      assert KeyAt(a).1 == KeyAt(p).1[..|KeyAt(p).1| - 1] == KeyAt(q).1[..|KeyAt(q).1| - 1] == KeyAt(b).1;
      KeyAtInjective(a, b);
    case _ =>
  }

  lemma KeysDiffer(paths: seq<Path>, i: nat, j: nat)
    requires Distinct(paths) && i < |paths| && j < |paths| && i != j
    ensures KeyAt(paths[i]) != KeyAt(paths[j])
  {
    if KeyAt(paths[i]) == KeyAt(paths[j]) {
      KeyAtInjective(paths[i], paths[j]);
      assert false;
    }
  }

  /** `p` is the place of the first `i` tokens. */
  ghost predicate Reached(p: Path, ts: Tokens, i: nat)
  {
    i <= |ts| && KeyAt(p) == (|ts|, ts[..i])
  }

  lemma NextReached(cfg: Config, p: Path, ts: Tokens, i: nat)
    requires Normal(ts, cfg.isVariable) && i < |ts| && Reached(p, ts, i)
    ensures Reached(Sub(p, Key(cfg, ts[i])), ts, i + 1)
  {
    NormalKey(cfg, ts, i);
    assert ts[..i + 1] == ts[..i] + [ts[i]];
  }

  /** Some node is the place of this key. */
  ghost predicate Placed(paths: seq<Path>, k: LeafKey)
  {
    exists i :: 0 <= i < |paths| && KeyAt(paths[i]) == k
  }

  datatype Shape = Shape(paths: seq<Path>, roots: map<nat, nat>, kids: seq<map<string, nat>>)

  ghost predicate Distinct<T>(s: seq<T>)
  {
    forall i, j :: 0 <= i < j < |s| ==> s[i] != s[j]
  }

  ghost predicate RootAt(s: Shape, n: nat)
    requires n in s.roots
  {
    s.roots[n] < |s.paths| && s.paths[s.roots[n]] == Top(n)
  }

  ghost predicate KidAt(s: Shape, i: nat, key: string)
    requires i < |s.paths| == |s.kids| && key in s.kids[i]
  {
    s.kids[i][key] < |s.paths| && s.paths[s.kids[i][key]] == Sub(s.paths[i], key)
  }

  /** A node hangs under its root entry or under its parent. */
  ghost predicate HangsAt(s: Shape, i: nat)
    requires i < |s.paths| == |s.kids|
  {
    match s.paths[i]
    case Top(n) => n in s.roots
    case Sub(q, key) => exists p :: 0 <= p < |s.paths| && s.paths[p] == q && key in s.kids[p]
  }

  ghost predicate ShapeOk(s: Shape)
  {
    && |s.paths| == |s.kids| && Distinct(s.paths)
    && (forall n <- s.roots :: RootAt(s, n))
    && (forall i, key {:trigger KidAt(s, i, key)} :: 0 <= i < |s.kids| && key in s.kids[i] ==> KidAt(s, i, key))
    && (forall i {:trigger HangsAt(s, i)} :: 0 <= i < |s.paths| ==> HangsAt(s, i))
  }

  ghost function AddRoot(s: Shape, n: nat): Shape
  {
    Shape(s.paths + [Top(n)], s.roots[n := |s.paths|], s.kids + [map[]])
  }

  ghost function AddKid(s: Shape, p: nat, key: string): Shape
    requires p < |s.paths| == |s.kids|
  {
    var grown: map<string, nat> := s.kids[p][key := |s.paths|];
    Shape(s.paths + [Sub(s.paths[p], key)], s.roots, s.kids[p := grown] + [map[]])
  }

  lemma AddRootHangs(s: Shape, n: nat, i: nat)
    requires ShapeOk(s) && n !in s.roots && i < |s.paths|
    ensures s.paths[i] != Top(n) && HangsAt(AddRoot(s, n), i)
  {
    var r := AddRoot(s, n);
    assert HangsAt(s, i);
    if s.paths[i].Sub? {
      var p :| 0 <= p < |s.paths| && s.paths[p] == s.paths[i].parent && s.paths[i].key in s.kids[p];
      assert r.paths[p] == r.paths[i].parent && r.paths[i].key in r.kids[p];
    }
  }

  lemma AddRootKids(s: Shape, n: nat, i: nat, key: string)
    requires ShapeOk(s) && i <= |s.paths| && key in AddRoot(s, n).kids[i]
    ensures KidAt(AddRoot(s, n), i, key)
  {
    assert i < |s.paths|;
    assert KidAt(s, i, key);
  }

  lemma AddRootOk(s: Shape, n: nat)
    requires ShapeOk(s) && n !in s.roots
    ensures ShapeOk(AddRoot(s, n))
  {
    var r := AddRoot(s, n);
    forall i | 0 <= i < |s.paths| ensures r.paths[i] != r.paths[|s.paths|] && HangsAt(r, i) { AddRootHangs(s, n, i); }
    forall m | m in r.roots ensures RootAt(r, m) { assert m != n ==> RootAt(s, m); }
    forall i, key | 0 <= i < |r.kids| && key in r.kids[i] ensures KidAt(r, i, key) { AddRootKids(s, n, i, key); }
    assert HangsAt(r, |s.paths|);
  }

  /** A key that is not among a node's children has no node anywhere. */
  lemma NoSuchKid(s: Shape, p: nat, key: string, i: nat)
    requires ShapeOk(s) && p < |s.paths| && key !in s.kids[p] && i < |s.paths|
    ensures s.paths[i] != Sub(s.paths[p], key)
  {
    assert HangsAt(s, i);
  }

  lemma AddKidHangs(s: Shape, p: nat, key: string, i: nat)
    requires ShapeOk(s) && p < |s.paths| && i <= |s.paths|
    ensures HangsAt(AddKid(s, p, key), i)
  {
    var r := AddKid(s, p, key);
    if i == |s.paths| {
      assert r.paths[p] == s.paths[p] && key in r.kids[p];
    } else {
      assert HangsAt(s, i);
      if s.paths[i].Sub? {
        var q :| 0 <= q < |s.paths| && s.paths[q] == s.paths[i].parent && s.paths[i].key in s.kids[q];
        assert r.paths[q] == r.paths[i].parent && r.paths[i].key in r.kids[q];
      }
    }
  }

  lemma AddKidKids(s: Shape, p: nat, key: string, i: nat, k: string)
    requires ShapeOk(s) && p < |s.paths| && i <= |s.paths| && k in AddKid(s, p, key).kids[i]
    ensures KidAt(AddKid(s, p, key), i, k)
  {
    if i < |s.paths| && (i != p || k != key) { assert KidAt(s, i, k); }
  }

  lemma AddKidOk(s: Shape, p: nat, key: string)
    requires ShapeOk(s) && p < |s.paths| && key !in s.kids[p]
    ensures ShapeOk(AddKid(s, p, key))
  {
    var r := AddKid(s, p, key);
    forall i | 0 <= i < |s.paths| ensures r.paths[i] != r.paths[|s.paths|] { NoSuchKid(s, p, key, i); }
    forall i | 0 <= i < |r.paths| ensures HangsAt(r, i) { AddKidHangs(s, p, key, i); }
    forall i, k | 0 <= i < |r.kids| && k in r.kids[i] ensures KidAt(r, i, k) { AddKidKids(s, p, key, i, k); }
    forall m | m in r.roots ensures RootAt(r, m) { assert RootAt(s, m); }
  }
}
