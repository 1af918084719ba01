/** A restart can forget: three lines of one tick leave the stored template behind the live
    one, and the next line is known before the restart and new after it. */
module MinerForgets {
  import opened Tokenizer
  import opened Templates
  import opened MinerSpec
  import opened MinerRuns
  import opened MinerReseed
  import opened MinerCatalog
  import opened MinerReboot

  /** Similarity one half, one key token, nothing taken for a variable, ids in clear text. */
  const CONFIG := Config(0.5, 1, 100, (t: string) => false, (t: string) => t)

  const FIRST: Tokens := ["k", "a", "b", "c"]
  const SECOND: Tokens := ["k", "x", "y", "c"]
  const THIRD: Tokens := ["k", "p", "b", "x"]
  const NEXT: Tokens := ["k", "u", "v", "w"]

  /** The live template after the second and the third line. */
  const MERGED2: Tokens := ["k", WILDCARD, WILDCARD, "c"]
  const MERGED3: Tokens := ["k", WILDCARD, WILDCARD, WILDCARD]

  // ---- one cluster, whatever the lines ------------------------------------------------------

  /** A message as the miner takes it in. */
  predicate Line(cfg: Config, ts: Tokens) { ts != [] && Normal(ts, cfg.isVariable) }

  /** A miner with one cluster, in its leaf. */
  ghost predicate Lone(cfg: Config, s: State, t: Tokens, id: string)
  {
    |s.vals| == 1 && s.vals[0].tokens == t && s.vals[0].id == id && s.leaves == map[KeyOf(cfg, t) := [0]]
  }

  /** `ts` is merged into `t`, giving `m`. */
  predicate MergesTo(cfg: Config, t: Tokens, ts: Tokens, m: Tokens)
  {
    Line(cfg, ts) && KeyOf(cfg, ts) == KeyOf(cfg, t) && |t| == |ts| && Similarity(t, ts) >= cfg.threshold
      && Merge(t, ts) == m
  }

  lemma LoneStep(cfg: Config, s: State, t: Tokens, id: string, ts: Tokens, m: Tokens)
    requires WellFormed(cfg, s) && Lone(cfg, s, t, id) && MergesTo(cfg, t, ts, m)
    ensures var a := ClusterStep(cfg, s, ts); !a.isNew && a.handle == 0 && Lone(cfg, a.state, m, id)
  {
    BestDecides(cfg, s, ts);
    assert Leaf(s, KeyOf(cfg, ts)) == [0];
    MatchedVals(cfg, s, ts, 0);
    MergeKeepsLeaf(cfg, t, ts);
  }

  lemma FirstStep(cfg: Config, ts: Tokens)
    requires Line(cfg, ts) && cfg.maxChildren > 0
    ensures WellFormed(cfg, EMPTY)
    ensures var a := ClusterStep(cfg, EMPTY, ts); a.isNew && a.handle == 0 && Lone(cfg, a.state, ts, NewId(cfg, ts))
  {
    MintedAnswer(cfg, EMPTY, ts);
    MintedLeaves(cfg, EMPTY, ts);
    var k := KeyOf(cfg, ts);
    assert Leaf(EMPTY, k) == [] && [] + [0] == [0];
    assert Minted(cfg, EMPTY, ts).leaves == map[][k := Leaf(EMPTY, k) + [0]];
  }

  /** A book whose one cluster was answered already this tick. */
  ghost predicate LoneBook(cfg: Config, b: Book, t: Tokens, id: string, stored: map<string, string>)
  {
    WellFormed(cfg, b.state) && Lone(cfg, b.state, t, id) && b.seen == {id} && b.stored == stored
  }

  lemma LoneText(cfg: Config, b: Book, t: Tokens, id: string, stored: map<string, string>, ts: Tokens, m: Tokens)
    requires LoneBook(cfg, b, t, id, stored) && MergesTo(cfg, t, ts, m)
    ensures LoneBook(cfg, MineText(cfg, b, Join(ts)), m, id, stored)
  {
    TokenizeJoin(ts, cfg.isVariable);
    MineTextWellFormed(cfg, b, Join(ts));
    LoneStep(cfg, b.state, t, id, ts, m);
    NotedAgain(b, ClusterStep(cfg, b.state, ts).state, id);
  }

  lemma NotedAgain(b: Book, s: State, id: string)
    requires b.seen == {id} && s.vals != [] && s.vals[0].id == id
    ensures Noted(b, s, s.vals[0]) == Book(s, b.stored, b.seen)
  {
    assert b.seen + {id} == b.seen;
  }

  lemma FirstText(cfg: Config, ts: Tokens)
    requires Line(cfg, ts) && cfg.maxChildren > 0
    ensures WellFormed(cfg, EMPTY_BOOK.state)
    ensures LoneBook(cfg, MineText(cfg, EMPTY_BOOK, Join(ts)), ts, NewId(cfg, ts), map[NewId(cfg, ts) := Join(ts)])
  {
    TokenizeJoin(ts, cfg.isVariable);
    FirstStep(cfg, ts);
    MineTextWellFormed(cfg, EMPTY_BOOK, Join(ts));
  }

  lemma BatchOf3(cfg: Config, b: Book, x: string, y: string, z: string)
    requires WellFormed(cfg, b.state)
    ensures WellFormed(cfg, MineText(cfg, b, x).state) && WellFormed(cfg, MineText(cfg, MineText(cfg, b, x), y).state)
    ensures MineBatch(cfg, b, [x, y, z]) == MineText(cfg, MineText(cfg, MineText(cfg, b, x), y), z)
  {
    var b1 := MineText(cfg, b, x);
    MineTextWellFormed(cfg, b, x);
    MineTextWellFormed(cfg, b1, y);
    BatchStep(cfg, b, x, [y, z]);
    BatchStep(cfg, b1, y, [z]);
    BatchStep(cfg, MineText(cfg, b1, y), z, []);
    assert [x, y, z] == [x] + [y, z] && [y, z] == [y] + [z] && [z] == [z] + [];
  }

  lemma BatchStep(cfg: Config, b: Book, x: string, more: seq<string>)
    requires WellFormed(cfg, b.state)
    ensures WellFormed(cfg, MineText(cfg, b, x).state)
    ensures MineBatch(cfg, b, [x] + more) == MineBatch(cfg, MineText(cfg, b, x), more)
  {
    MineTextWellFormed(cfg, b, x);
    assert ([x] + more)[1..] == more;
  }

  lemma OneTick(cfg: Config, batch: seq<string>)
    ensures WellFormed(cfg, EMPTY_BOOK.state)
    ensures MineTicks(cfg, EMPTY_BOOK, [batch]) == MineBatch(cfg, EMPTY_BOOK, batch)
  {
    assert EMPTY_BOOK.(seen := {}) == EMPTY_BOOK && [batch][1..] == [];
  }

  /** One tick of three lines, each merged into the first: the catalog keeps the first line,
      the miner the merge of all three. */
  lemma TickOf3(cfg: Config, a: Tokens, x: Tokens, y: Tokens, m: Tokens, n: Tokens)
    requires Line(cfg, a) && cfg.maxChildren > 0 && MergesTo(cfg, a, x, m) && MergesTo(cfg, m, y, n)
    ensures LoneBook(cfg, MineTicks(cfg, EMPTY_BOOK, [[Join(a), Join(x), Join(y)]]), n, NewId(cfg, a),
        map[NewId(cfg, a) := Join(a)])
  {
    var id, stored := NewId(cfg, a), map[NewId(cfg, a) := Join(a)];
    FirstText(cfg, a);
    var b1 := MineText(cfg, EMPTY_BOOK, Join(a));
    LoneText(cfg, b1, a, id, stored, x, m);
    LoneText(cfg, MineText(cfg, b1, Join(x)), m, id, stored, y, n);
    BatchOf3(cfg, EMPTY_BOOK, Join(a), Join(x), Join(y));
    OneTick(cfg, [Join(a), Join(x), Join(y)]);
  }

  /** The restart on such a book: a line the merge takes and the first line does not is
      known before it and new after it. */
  lemma ForgetsAfter(cfg: Config, b: Book, a: Tokens, n: Tokens, next: Tokens, m: Tokens, size: nat)
    requires Line(cfg, a) && LoneBook(cfg, b, n, NewId(cfg, a), map[NewId(cfg, a) := Join(a)])
    requires MergesTo(cfg, n, next, m) && Similarity(a, next) < cfg.threshold
    ensures var seeds := [Seed(NewId(cfg, a), Join(a), size)];
      && Lists(seeds, b.stored)
      && !ClusterStep(cfg, b.state, next).isNew && ClusterStep(cfg, Run(cfg, EMPTY, seeds), next).isNew
  {
    var seeds := [Seed(NewId(cfg, a), Join(a), size)];
    assert seeds[0] in seeds;
    TokenizeJoin(a, cfg.isVariable);
    LoneStep(cfg, b.state, n, NewId(cfg, a), next, m);
    AnswerAfterRestart(cfg, seeds, next);
  }

  // ---- the lines ---------------------------------------------------------------------------

  predicate Word(t: string) { |t| == 1 && 'a' <= t[0] <= 'z' }

  lemma WordsAreLines(ts: Tokens)
    requires ts != [] && forall t <- ts :: Word(t)
    ensures Line(CONFIG, ts)
  {
    forall t | t in ts ensures Clean(t) { assert Plain(t); }
  }

  lemma SimilarityOf4(a: Tokens, b: Tokens, n: nat)
    requires |a| == |b| == 4
    requires n == (if Agree(a[0], b[0]) then 1 else 0) + (if Agree(a[1], b[1]) then 1 else 0)
                  + (if Agree(a[2], b[2]) then 1 else 0) + (if Agree(a[3], b[3]) then 1 else 0)
    ensures Similarity(a, b) == n as real / 4.0
  {
    assert Matches(a, b, 0) == 0;
    assert Matches(a, b, 1) == Matches(a, b, 0) + if Agree(a[0], b[0]) then 1 else 0;
    assert Matches(a, b, 2) == Matches(a, b, 1) + if Agree(a[1], b[1]) then 1 else 0;
    assert Matches(a, b, 3) == Matches(a, b, 2) + if Agree(a[2], b[2]) then 1 else 0;
    assert Matches(a, b, 4) == Matches(a, b, 3) + if Agree(a[3], b[3]) then 1 else 0;
  }

  lemma FirstMerge()
    ensures Line(CONFIG, FIRST) && MergesTo(CONFIG, FIRST, SECOND, MERGED2)
  {
    WordsAreLines(FIRST);
    WordsAreLines(SECOND);
    SimilarityOf4(FIRST, SECOND, 2);
    assert FIRST[..1] == SECOND[..1] && Merge(FIRST, SECOND) == MERGED2;
  }

  lemma SecondMerge()
    ensures MergesTo(CONFIG, MERGED2, THIRD, MERGED3)
  {
    WordsAreLines(THIRD);
    SimilarityOf4(MERGED2, THIRD, 3);
    assert THIRD[..1] == MERGED2[..1] && Merge(MERGED2, THIRD) == MERGED3;
  }

  lemma NextLine()
    ensures MergesTo(CONFIG, MERGED3, NEXT, MERGED3) && Similarity(FIRST, NEXT) < 0.5
  {
    WordsAreLines(NEXT);
    SimilarityOf4(MERGED3, NEXT, 4);
    SimilarityOf4(FIRST, NEXT, 1);
    assert NEXT[..1] == MERGED3[..1] && Merge(MERGED3, NEXT) == MERGED3;
  }

  /** There are three lines of one tick, and a fourth that is known to the running miner and
      new to the restarted one, although nothing was evicted, hidden or deleted. */
  lemma RestartForgets()
    ensures HashInjective(CONFIG) && CONFIG.threshold <= 1.0
    ensures exists a: Tokens, x: Tokens, y: Tokens, next: Tokens ::
      var b := MineTicks(CONFIG, EMPTY_BOOK, [[Join(a), Join(x), Join(y)]]);
      var seeds := [Seed(NewId(CONFIG, a), Join(a), 3)];
      && Lists(seeds, b.stored)
      && !ClusterStep(CONFIG, b.state, next).isNew && ClusterStep(CONFIG, Run(CONFIG, EMPTY, seeds), next).isNew
  {
    var a, x, y, next := FIRST, SECOND, THIRD, NEXT;
    FirstMerge();
    SecondMerge();
    NextLine();
    TickOf3(CONFIG, a, x, y, MERGED2, MERGED3);
    ForgetsAfter(CONFIG, MineTicks(CONFIG, EMPTY_BOOK, [[Join(a), Join(x), Join(y)]]), a, MERGED3, next, MERGED3, 3);
  }
}
