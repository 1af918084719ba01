/** Templates ordered by wildcards: merging is the join of this order. */
module Templates {
  import opened Tokenizer

  /** `a` is at or below `b`: `b` keeps each token of `a` or has a wildcard there. */
  predicate Below(a: Tokens, b: Tokens)
  {
    |a| == |b| && forall i :: 0 <= i < |a| ==> b[i] == WILDCARD || a[i] == b[i]
  }

  /** Positions that disagree become wildcards. */
  function Merge(a: Tokens, b: Tokens): (r: Tokens)
    requires |a| == |b|
  {
    seq(|a|, i requires 0 <= i < |a| => if a[i] == b[i] then a[i] else WILDCARD)
  }

  function Matches(a: Tokens, b: Tokens, n: nat): (m: nat)
    requires n <= |a| == |b|
    ensures m <= n
    ensures m == n <==> forall i :: 0 <= i < n ==> Agree(a[i], b[i])
  {
    if n == 0 then 0 else Matches(a, b, n - 1) + if Agree(a[n - 1], b[n - 1]) then 1 else 0
  }

  predicate Agree(x: string, y: string) { x == y || x == WILDCARD || y == WILDCARD }

  /** The fraction of agreeing positions; 0 for unequal lengths or empty templates. */
  function Similarity(a: Tokens, b: Tokens): (s: real)
    ensures 0.0 <= s <= 1.0
  {
    if |a| != |b| || a == [] then 0.0
    else
      FractionBounds(Matches(a, b, |a|), |a|);
      Matches(a, b, |a|) as real / |a| as real
  }

  /** The positions where two templates agree or one has a wildcard. */
  function Agreeing(a: Tokens, b: Tokens, n: nat): set<int>
    requires n <= |a| == |b|
  {
    set i | 0 <= i < n && (a[i] == b[i] || a[i] == "<*>" || b[i] == "<*>")
  }

  lemma {:induction false} MatchesCount(a: Tokens, b: Tokens, n: nat)
    requires n <= |a| == |b|
    ensures Matches(a, b, n) == |Agreeing(a, b, n)|
  {
    if n > 0 {
      MatchesCount(a, b, n - 1);
      var more := if a[n - 1] == b[n - 1] || a[n - 1] == "<*>" || b[n - 1] == "<*>" then {n - 1} else {};
      assert Agreeing(a, b, n) == Agreeing(a, b, n - 1) + more;
    }
  }

  /** Similarity is the share of those positions. */
  lemma SimilarityIsShare(a: Tokens, b: Tokens)
    requires |a| == |b| && a != []
    ensures Similarity(a, b) * |a| as real == |Agreeing(a, b, |a|)| as real
  {
    MatchesCount(a, b, |a|);
  }

  lemma SimilarityIsOne(a: Tokens, b: Tokens)
    ensures Similarity(a, b) == 1.0 <==> |a| == |b| && a != [] && forall i :: 0 <= i < |a| ==> Agree(a[i], b[i])
  {
    if |a| == |b| && a != [] { FractionBounds(Matches(a, b, |a|), |a|); }
  }

  lemma FractionBounds(m: nat, n: nat)
    requires m <= n && n > 0
    ensures 0.0 <= m as real / n as real <= 1.0
    ensures m as real / n as real == 1.0 <==> m == n
  {
    var q := m as real / n as real;
    assert q * n as real == m as real;
    Scale(q, n as real);
  }

  lemma Scale(q: real, n: real)
    requires n > 0.0
    ensures q > 1.0 ==> q * n > n
    ensures q < 0.0 ==> q * n < 0.0
    ensures q == 1.0 <==> q * n == n
  {
    if q < 1.0 { assert (1.0 - q) * n > 0.0; }
  }

  lemma MergeIsJoin(a: Tokens, b: Tokens, u: Tokens)
    requires |a| == |b|
    ensures Below(a, Merge(a, b)) && Below(b, Merge(a, b))
    ensures Below(Merge(a, b), u) <==> Below(a, u) && Below(b, u)
  {
    if Below(a, u) && Below(b, u) {
      forall i | 0 <= i < |a| ensures u[i] == WILDCARD || Merge(a, b)[i] == u[i] { }
    }
    if Below(Merge(a, b), u) {
      forall i | 0 <= i < |a| ensures (u[i] == WILDCARD || a[i] == u[i]) && (u[i] == WILDCARD || b[i] == u[i]) {
        assert u[i] == WILDCARD || Merge(a, b)[i] == u[i];
      }
    }
  }

  lemma BelowTransitive(a: Tokens, b: Tokens, c: Tokens)
    requires Below(a, b) && Below(b, c)
    ensures Below(a, c)
  {
  }

  lemma BelowAntisymmetric(a: Tokens, b: Tokens)
    requires Below(a, b) && Below(b, a)
    ensures a == b
  {
  }

  /** A template that covers a message is fully similar to it. */
  lemma CoveredIsSimilar(m: Tokens, t: Tokens)
    requires Below(m, t) && m != []
    ensures Similarity(t, m) == 1.0
  {
    SimilarityIsOne(t, m);
  }

  /** `t` is the least template covering every message of `ms`. */
  ghost predicate IsLeastCover(t: Tokens, ms: seq<Tokens>)
  {
    && (forall m <- ms :: Below(m, t))
    && (forall u: Tokens :: (forall m <- ms :: Below(m, u)) ==> Below(t, u))
  }

  lemma MergeExtendsCover(t: Tokens, ms: seq<Tokens>, m: Tokens)
    requires IsLeastCover(t, ms) && ms != [] && |t| == |m|
    ensures IsLeastCover(Merge(t, m), ms + [m])
  {
    forall x | x in ms + [m] ensures Below(x, Merge(t, m)) {
      MergeIsJoin(t, m, t);
      if x in ms { BelowTransitive(x, t, Merge(t, m)); }
    }
    forall u: Tokens | forall x <- ms + [m] :: Below(x, u) ensures Below(Merge(t, m), u) {
      assert m in ms + [m];
      assert forall x <- ms :: x in ms + [m];
      MergeIsJoin(t, m, u);
    }
  }

  /** mergeTemplates, position by position. */
  method MergeTemplates(existing: Tokens, incoming: Tokens) returns (out: Tokens)
    requires |existing| == |incoming|
    ensures out == Merge(existing, incoming)
  {
    out := [];
    for i := 0 to |existing|
      invariant |out| == i
      invariant forall j :: 0 <= j < i ==> out[j] == Merge(existing, incoming)[j]
    {
      out := out + [if existing[i] == incoming[i] then existing[i] else WILDCARD];
    }
  }

  /** tokenSimilarity. */
  method TokenSimilarity(a: Tokens, b: Tokens) returns (s: real)
    ensures s == Similarity(a, b)
  {
    if |a| != |b| || |a| == 0 {
      return 0.0;
    }
    var matches := 0;
    for i := 0 to |a|
      invariant matches == Matches(a, b, i)
    {
      if Agree(a[i], b[i]) {
        matches := matches + 1;
      }
    }
    return matches as real / |a| as real;
  }
}
