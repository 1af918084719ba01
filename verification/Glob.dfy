/** The override matcher's translation of a `*`/`?` glob into an anchored regular
    expression: the text it builds is parsed back and given the meaning of the regex
    engine, which is compared with a direct reading of the glob. Strings are sequences
    of code points. */
module Glob {
  import opened Common
  import opened Tokenizer

  // ---- the regex fragment ---------------------------------------------------------------

  datatype Atom = Lit(c: char) | Dot

  datatype Piece = Once(a: Atom) | Many(a: Atom)

  /** Without flags `.` matches anything but a newline. */
  predicate Fits(a: Atom, c: char)
  {
    match a case Lit(x) => c == x case Dot => c != '\n'
  }

  /** The language of a sequence of pieces: a starred piece takes any run it fits. */
  ghost predicate Accepts(ps: seq<Piece>, s: string)
    decreases |ps|
  {
    if ps == [] then s == ""
    else match ps[0]
      case Once(a) => s != "" && Fits(a, s[0]) && Accepts(ps[1..], s[1..])
      case Many(a) =>
        exists k :: 0 <= k <= |s| && (forall i :: 0 <= i < k ==> Fits(a, s[i])) && Accepts(ps[1..], s[k..])
  }

  /** The characters with a meaning of their own in a regex. */
  predicate Special(c: char) { c in "\\.+*?()|[]{}^$" }

  /** The punctuation QuoteMeta escapes. */
  predicate IsMeta(c: char) { c in "\\.+*?()|[]{}^$" }

  /** Parse what follows `^`: escapes, dots and plain characters, each maybe starred,
      up to the closing `$`. None when the engine would not read it so. */
  function ParsePieces(t: string): Option<seq<Piece>>
    decreases |t|, 0
  {
    if t == "$" then Some([])
    else if t == "" then None
    else if t[0] == '\\' then
      if |t| >= 2 && Special(t[1]) then ParseRest(Lit(t[1]), t[2..]) else None
    else if t[0] == '.' then ParseRest(Dot, t[1..])
    else if Special(t[0]) then None
    else ParseRest(Lit(t[0]), t[1..])
  }

  function ParseRest(a: Atom, t: string): Option<seq<Piece>>
    decreases |t|, 1
  {
    if t != "" && t[0] == '*' then Prepend(Many(a), ParsePieces(t[1..])) else if t == "" then None
    else Prepend(Once(a), ParsePieces(t))
  }

  function Prepend(p: Piece, r: Option<seq<Piece>>): Option<seq<Piece>>
  {
    if r.Some? then Some([p] + r.value) else None
  }

  function Parse(text: string): Option<seq<Piece>>
  {
    if text != "" && text[0] == '^' then ParsePieces(text[1..]) else None
  }

  // ---- globs ------------------------------------------------------------------------------

  predicate HasWildcard(entry: string) { '*' in entry || '?' in entry }

  /** A direct reading of a glob. `*` takes any run, `?` any one character; whether they
      take a newline is a parameter. */
  predicate GlobMatch(entry: string, s: string, newlines: bool)
    decreases |entry| + |s|
  {
    if entry == "" then s == ""
    else if entry[0] == '*' then
      || GlobMatch(entry[1..], s, newlines)
      || (s != "" && (newlines || s[0] != '\n') && GlobMatch(entry, s[1..], newlines))
    else
      && s != "" && (if entry[0] == '?' then newlines || s[0] != '\n' else s[0] == entry[0])
      && GlobMatch(entry[1..], s[1..], newlines)
  }

  function PieceOf(c: char): Piece
  {
    if c == '*' then Many(Dot) else if c == '?' then Once(Dot) else Once(Lit(c))
  }

  function Pieces(entry: string): seq<Piece>
  {
    if entry == "" then [] else [PieceOf(entry[0])] + Pieces(entry[1..])
  }

  function QuoteMeta(c: char): string { if IsMeta(c) then ['\\', c] else [c] }

  function TextOf(c: char): string
  {
    if c == '*' then ".*" else if c == '?' then "." else QuoteMeta(c)
  }

  function Body(entry: string): string
  {
    if entry == "" then "" else TextOf(entry[0]) + Body(entry[1..])
  }

  // ---- the text parses to the pieces it was built from ------------------------------------

  /** Nothing a glob character turns into starts with a star. */
  lemma BodyHead(entry: string)
    ensures var t := Body(entry) + "$"; t != "" && t[0] != '*'
  {
  }

  lemma {:induction false} ParseBody(entry: string)
    ensures ParsePieces(Body(entry) + "$") == Some(Pieces(entry))
  {
    if entry == "" {
      assert Body(entry) + "$" == "$";
    } else {
      var c, rest := entry[0], Body(entry[1..]) + "$";
      ParseBody(entry[1..]);
      BodyHead(entry[1..]);
      assert Body(entry) + "$" == TextOf(c) + rest;
      ParseOne(c, rest);
    }
  }

  lemma ParseOne(c: char, rest: string)
    requires rest != "" && rest[0] != '*'
    ensures ParsePieces(TextOf(c) + rest) == Prepend(PieceOf(c), ParsePieces(rest))
  {
    var t := TextOf(c) + rest;
    if c == '*' {
      assert t[1..] == "*" + rest && t[1..][1..] == rest;
    } else if c != '?' && IsMeta(c) {
      assert t[2..] == rest;
    } else {
      assert t[1..] == rest;
    }
  }

  // ---- the pieces mean what the glob means ------------------------------------------------

  lemma {:induction false} PiecesMean(entry: string, s: string)
    ensures Accepts(Pieces(entry), s) <==> GlobMatch(entry, s, false)
    decreases |entry| + |s|
  {
    if entry != "" {
      assert Pieces(entry)[1..] == Pieces(entry[1..]);
      if entry[0] == '*' {
        StarUnfolds(Pieces(entry), s);
        PiecesMean(entry[1..], s);
        if s != "" { PiecesMean(entry, s[1..]); }
      } else if s != "" {
        PiecesMean(entry[1..], s[1..]);
      }
    }
  }

  /** A starred piece takes nothing, or one character and then the same again. */
  lemma StarUnfolds(ps: seq<Piece>, s: string)
    requires ps != [] && ps[0].Many?
    ensures Accepts(ps, s) <==> Accepts(ps[1..], s) || (s != "" && Fits(ps[0].a, s[0]) && Accepts(ps, s[1..]))
  {
    if Accepts(ps, s) {
      var k :| 0 <= k <= |s| && (forall i :: 0 <= i < k ==> Fits(ps[0].a, s[i])) && Accepts(ps[1..], s[k..]);
      if k == 0 {
        assert s[0..] == s;
      } else {
        assert s[1..][k - 1..] == s[k..];
        assert forall i :: 0 <= i < k - 1 ==> s[1..][i] == s[i + 1];
      }
    }
    if Accepts(ps[1..], s) { assert s[0..] == s; }
    if s != "" && Fits(ps[0].a, s[0]) && Accepts(ps, s[1..]) {
      var k :| 0 <= k <= |s[1..]| && (forall i :: 0 <= i < k ==> Fits(ps[0].a, s[1..][i]))
          && Accepts(ps[1..], s[1..][k..]);
      assert s[1..][k..] == s[k + 1..];
      assert forall i :: 0 <= i < k + 1 ==> Fits(ps[0].a, s[i]) by {
        forall i | 0 <= i < k + 1 ensures Fits(ps[0].a, s[i]) { if i > 0 { assert s[i] == s[1..][i - 1]; } }
      }
    }
  }

  /** The translation keeps the meaning of every glob on every string: it always parses,
      and accepts exactly what the glob matches when wildcards do not take newlines. */
  lemma TranslationMeansGlob(entry: string, s: string)
    ensures var re := Parse("^" + Body(entry) + "$");
      re.Some? && (Accepts(re.value, s) <==> GlobMatch(entry, s, false))
  {
    var text := "^" + Body(entry) + "$";
    assert text[1..] == Body(entry) + "$";
    ParseBody(entry);
    PiecesMean(entry, s);
  }

  /** On strings without a newline that is the plain reading of the glob. */
  lemma {:induction false} NewlineFree(entry: string, s: string)
    requires '\n' !in s
    ensures GlobMatch(entry, s, false) <==> GlobMatch(entry, s, true)
    decreases |entry| + |s|
  {
    if entry != "" {
      if entry[0] == '*' {
        NewlineFree(entry[1..], s);
        if s != "" { NewlineFree(entry, s[1..]); }
      } else if s != "" {
        NewlineFree(entry[1..], s[1..]);
      }
    }
  }

  /** The whole-name glob takes every string when wildcards take newlines ... */
  lemma {:induction false} StarTakesAll(s: string)
    ensures GlobMatch("*", s, true)
  {
    assert "*"[1..] == "";
    if s != "" { StarTakesAll(s[1..]); }
  }

  /** ... and exactly the strings without one when they do not. */
  lemma {:induction false} StarTakesNewlineFree(s: string)
    ensures GlobMatch("*", s, false) <==> '\n' !in s
  {
    assert "*"[1..] == "";
    if s != "" {
      StarTakesNewlineFree(s[1..]);
      assert s == [s[0]] + s[1..];
    }
  }

  /** The two readings agree on every glob exactly on the strings without a newline. */
  lemma ReadingsAgreeIff(s: string)
    ensures (forall entry: string :: GlobMatch(entry, s, false) <==> GlobMatch(entry, s, true)) <==> '\n' !in s
  {
    StarTakesAll(s);
    StarTakesNewlineFree(s);
    if '\n' !in s {
      forall entry: string ensures GlobMatch(entry, s, false) <==> GlobMatch(entry, s, true) { NewlineFree(entry, s); }
    }
  }

  /** The equality fast path is what the regex would answer on an entry without wildcards. */
  lemma {:induction false} FastPathAgrees(entry: string, s: string)
    requires !HasWildcard(entry)
    ensures GlobMatch(entry, s, false) <==> s == entry
    decreases |entry|
  {
    if entry != "" {
      assert entry[0] in entry && forall c <- entry[1..] :: c in entry;
      if s != "" {
        FastPathAgrees(entry[1..], s[1..]);
        assert s == [s[0]] + s[1..] && entry == [entry[0]] + entry[1..];
      }
    }
  }

  /** matchSignalGlob, with the compiled expression answering as its language: a blank
      entry or signal never matches, everything else is the glob. */
  method MatchSignalGlob(signal: string, rule: string) returns (answer: bool)
    ensures answer <==>
      TrimSpace(rule) != "" && signal != "" && GlobMatch(TrimSpace(rule), signal, false)
  {
    var entry := TrimSpace(rule);
    if entry == "" || signal == "" {
      return false;
    }
    if !HasWildcard(entry) {
      FastPathAgrees(entry, signal);
      return signal == entry;
    }
    var b := "^";
    var i := 0;
    while i < |entry|
      invariant 0 <= i <= |entry|
      invariant b + Body(entry[i..]) == "^" + Body(entry)
    {
      var c := entry[i];
      assert entry[i..][1..] == entry[i + 1..];
      var piece := if c == '*' then ".*" else if c == '?' then "." else QuoteMeta(c);
      assert (b + piece) + Body(entry[i + 1..]) == b + (piece + Body(entry[i + 1..]));
      b := b + piece;
      i := i + 1;
    }
    assert entry[i..] == "" && b == b + Body("");
    b := b + "$";
    TranslationMeansGlob(entry, signal);
    answer := MatchString(Parse(b).value, signal);
  }

  /** The engine's answer, by backtracking over the pieces. */
  predicate MatchString(ps: seq<Piece>, s: string): (r: bool)
    ensures r <==> Accepts(ps, s)
    decreases |ps| + |s|
  {
    if ps == [] then s == ""
    else match ps[0]
      case Once(a) => s != "" && Fits(a, s[0]) && MatchString(ps[1..], s[1..])
      case Many(a) =>
        StarUnfolds(ps, s);
        MatchString(ps[1..], s) || (s != "" && Fits(a, s[0]) && MatchString(ps, s[1..]))
  }
}
