/** The search box of the paged catalog: LIKE with an escape character, and the
    escaping that makes an operator's text a plain substring. */
module LikeEscape {
  import opened Common

  const ESC: char := '\\'

  /** ASCII case folding, as ILIKE and strings.ToLower apply it to both sides. */
  function LowerChar(c: char): char
  {
    if 'A' <= c <= 'Z' then ((c as int) + 32) as char else c
  }

  /** Two characters are the same but for the case of an ASCII letter. */
  predicate SameButCase(a: char, b: char)
  {
    a == b || (65 <= a as int <= 90 && b as int == a as int + 32) || (65 <= b as int <= 90 && a as int == b as int + 32)
  }

  lemma LowerIgnoresCase(a: char, b: char)
    ensures LowerChar(a) == LowerChar(b) <==> SameButCase(a, b)
  {
  }

  function Lower(s: string): string
  {
    if s == "" then "" else [LowerChar(s[0])] + Lower(s[1..])
  }

  /** `text LIKE pattern ESCAPE '\'`: `%` any run, `_` any character. */
  predicate Like(s: string, p: string)
    decreases |s| + |p|
  {
    if p == "" then s == ""
    else if p[0] == '%' then Like(s, p[1..]) || (s != "" && Like(s[1..], p))
    else if p[0] == ESC then |p| >= 2 && s != "" && s[0] == p[1] && Like(s[1..], p[2..])
    else s != "" && (p[0] == '_' || s[0] == p[0]) && Like(s[1..], p[1..])
  }

  predicate Meta(c: char) { c == ESC || c == '%' || c == '_' }

  /** escapeCatalogLikePattern. */
  function Escape(q: string): string
  {
    if q == "" then "" else (if Meta(q[0]) then [ESC, q[0]] else [q[0]]) + Escape(q[1..])
  }

  function ILike(text: string, pattern: string): bool { Like(Lower(text), Lower(pattern)) }

  /** The search term as the SQL builds its pattern: `'%' || $2 || '%'`. */
  function SearchPattern(q: string): string { "%" + Escape(q) + "%" }

  /** An escaped prefix of a pattern matches exactly itself. */
  lemma {:induction false} EscapedLiteral(s: string, q: string, rest: string)
    ensures Like(s, Escape(q) + rest) <==> q <= s && Like(s[|q|..], rest)
  {
    if q == "" {
      assert Escape(q) + rest == rest;
    } else {
      var tail := Escape(q[1..]) + rest;
      if Meta(q[0]) {
        assert Escape(q) + rest == [ESC, q[0]] + tail;
        assert ([ESC, q[0]] + tail)[2..] == tail;
      } else {
        assert Escape(q) + rest == [q[0]] + tail;
        assert ([q[0]] + tail)[1..] == tail;
      }
      if s != "" && s[0] == q[0] {
        EscapedLiteral(s[1..], q[1..], rest);
        assert q == [q[0]] + q[1..] && s == [s[0]] + s[1..];
        if q[1..] <= s[1..] { assert s[1..][|q[1..]|..] == s[|q|..]; }
      }
    }
  }

  lemma {:induction false} PercentMatchesAll(s: string)
    ensures Like(s, "%")
  {
    if s != "" { PercentMatchesAll(s[1..]); }
  }

  lemma {:induction false} EscapedSearchIsContains(s: string, q: string)
    ensures Like(s, SearchPattern(q)) <==> Contains(s, q)
  {
    var body := Escape(q) + "%";
    assert SearchPattern(q) == "%" + body && ("%" + body)[1..] == body;
    EscapedLiteral(s, q, "%");
    if q <= s { PercentMatchesAll(s[|q|..]); }
    if s != "" { EscapedSearchIsContains(s[1..], q); }
  }

  lemma {:induction false} LowerConcat(a: string, b: string)
    ensures Lower(a + b) == Lower(a) + Lower(b)
  {
    if a == "" {
      assert a + b == b;
    } else {
      assert (a + b)[1..] == a[1..] + b;
      LowerConcat(a[1..], b);
    }
  }

  lemma {:induction false} LowerEscape(q: string)
    ensures Lower(Escape(q)) == Escape(Lower(q))
  {
    if q != "" {
      LowerEscape(q[1..]);
      if Meta(q[0]) {
        LowerConcat([ESC, q[0]], Escape(q[1..]));
        assert [ESC, q[0]][1..] == [q[0]] && [q[0]][1..] == "";
        assert Lower([q[0]]) == [q[0]];
        assert Lower([ESC, q[0]]) == [ESC, q[0]];
      } else {
        LowerConcat([q[0]], Escape(q[1..]));
        assert [q[0]][1..] == "";
        assert Lower([q[0]]) == [LowerChar(q[0])];
      }
    }
  }

  /** The ILIKE over the escaped term selects exactly the texts that contain the
      term case-insensitively, whatever metacharacters the term holds. */
  lemma EscapedILikeIsSubstringSearch(text: string, q: string)
    ensures ILike(text, SearchPattern(q)) <==> Contains(Lower(text), Lower(q))
  {
    LowerConcat("%" + Escape(q), "%");
    LowerConcat("%", Escape(q));
    LowerEscape(q);
    assert Lower("%") == "%" by { assert "%"[1..] == ""; }
    EscapedSearchIsContains(Lower(text), Lower(q));
  }
}
