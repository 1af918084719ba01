/** Splitting a log message into template tokens, and reading a stored template back. */
module Tokenizer {

  const WILDCARD: string := "<*>"

  type Tokens = seq<string>

  /** unicode.IsSpace. */
  predicate IsSpace(c: char)
  {
    c == ' ' || '\U{0009}' <= c <= '\U{000D}' || c == '\U{0085}' || c == '\U{00A0}' || c == '\U{1680}'
    || '\U{2000}' <= c <= '\U{200A}' || c == '\U{2028}' || c == '\U{2029}' || c == '\U{202F}'
    || c == '\U{205F}' || c == '\U{3000}'
  }

  predicate IsDelim(c: char) { c in "=,()[]{}\"" }

  // ---- stripControlChars -------------------------------------------------------

  function ReplaceCrLf(s: string): string
  {
    if s == "" then ""
    else if |s| >= 2 && s[0] == '\r' && s[1] == '\n' then " " + ReplaceCrLf(s[2..])
    else [s[0]] + ReplaceCrLf(s[1..])
  }

  function ReplaceChar(s: string, c: char): string
  {
    if s == "" then "" else [if s[0] == c then ' ' else s[0]] + ReplaceChar(s[1..], c)
  }

  /** Runs of spaces become one space. */
  function Collapse(s: string): string
  {
    if s == "" then ""
    else if |s| >= 2 && s[0] == ' ' && s[1] == ' ' then Collapse(s[1..])
    else [s[0]] + Collapse(s[1..])
  }

  function TrimLeft(s: string): string
  {
    if s != "" && IsSpace(s[0]) then TrimLeft(s[1..]) else s
  }

  function TrimRight(s: string): string
  {
    if s != "" && IsSpace(s[|s| - 1]) then TrimRight(s[..|s| - 1]) else s
  }

  /** strings.TrimSpace. */
  function TrimSpace(s: string): string { TrimRight(TrimLeft(s)) }

  predicate AllSpace(s: string) { forall c <- s :: IsSpace(c) }

  ghost predicate SpaceThen(s: string, t: string) { exists a: string :: s == a + t && AllSpace(a) }

  lemma SpaceThenMore(c: char, s: string, t: string)
    requires IsSpace(c) && SpaceThen(s, t)
    ensures SpaceThen([c] + s, t)
  {
    var a: string :| s == a + t && AllSpace(a);
    assert [c] + s == ([c] + a) + t;
  }

  lemma {:induction false} TrimLeftDrops(s: string)
    ensures SpaceThen(s, TrimLeft(s)) && (TrimLeft(s) != "" ==> !IsSpace(TrimLeft(s)[0]))
  {
    if s != "" && IsSpace(s[0]) {
      TrimLeftDrops(s[1..]);
      SpaceThenMore(s[0], s[1..], TrimLeft(s));
      assert s == [s[0]] + s[1..];
    } else {
      assert s == "" + s;
    }
  }

  lemma {:induction false} TrimRightDrops(s: string)
    ensures exists b: string :: s == TrimRight(s) + b && AllSpace(b)
    ensures TrimRight(s) <= s && (TrimRight(s) != "" ==> !IsSpace(TrimRight(s)[|TrimRight(s)| - 1]))
  {
    if s != "" && IsSpace(s[|s| - 1]) {
      var front := s[..|s| - 1];
      TrimRightDrops(front);
      var b: string :| front == TrimRight(front) + b && AllSpace(b);
      assert s == TrimRight(s) + (b + [s[|s| - 1]]);
    } else {
      assert s == TrimRight(s) + "" && AllSpace("");
    }
  }

  /** Trimming takes white space off both ends, all of it, and nothing else. */
  lemma TrimSpaceDropsEnds(s: string)
    ensures exists a: string, b: string :: s == a + TrimSpace(s) + b && AllSpace(a) && AllSpace(b)
    ensures var t := TrimSpace(s); t != "" ==> !IsSpace(t[0]) && !IsSpace(t[|t| - 1])
  {
    TrimLeftDrops(s);
    TrimRightDrops(TrimLeft(s));
    var a: string :| s == a + TrimLeft(s) && AllSpace(a);
    var b: string :| TrimLeft(s) == TrimSpace(s) + b && AllSpace(b);
    assert s == a + TrimSpace(s) + b;
  }

  function StripControl(s: string): string
  {
    TrimRight(TrimLeft(Collapse(ReplaceChar(ReplaceChar(ReplaceCrLf(s), '\n'), '\t'))))
  }

  // ---- splitting ------------------------------------------------------------------

  /** A space on both sides of every delimiter. */
  function Spread(s: string): string
  {
    if s == "" then "" else (if IsDelim(s[0]) then [' ', s[0], ' '] else [s[0]]) + Spread(s[1..])
  }

  /** strings.Fields, with `cur` the field being collected. */
  function FieldsFrom(s: string, cur: string): Tokens
  {
    if s == "" then (if cur == "" then [] else [cur])
    else if IsSpace(s[0]) then (if cur == "" then [] else [cur]) + FieldsFrom(s[1..], "")
    else FieldsFrom(s[1..], cur + [s[0]])
  }

  function Blank(ts: Tokens, isVariable: string -> bool): Tokens
  {
    if ts == [] then [] else [if isVariable(ts[0]) then WILDCARD else ts[0]] + Blank(ts[1..], isVariable)
  }

  function Tokenize(s: string, isVariable: string -> bool): Tokens
  {
    if s == "" then [] else Blank(FieldsFrom(Spread(StripControl(s)), ""), isVariable)
  }

  /** strings.Join(tokens, " "). */
  function Join(ts: Tokens): string
  {
    if ts == [] then "" else if |ts| == 1 then ts[0] else ts[0] + " " + Join(ts[1..])
  }

  // ---- the shape of tokens ------------------------------------------------------------

  predicate Plain(t: string)
  {
    t != "" && forall c <- t :: !IsSpace(c) && !IsDelim(c)
  }

  /** A token is one delimiter or a run of other visible characters. */
  predicate Clean(t: string)
  {
    Plain(t) || (|t| == 1 && IsDelim(t[0]))
  }

  /** What tokenizing and merging can produce: clean tokens, none of them an
      unblanked variable. */
  predicate Normal(ts: Tokens, isVariable: string -> bool)
  {
    forall t <- ts :: Clean(t) && (t == WILDCARD || !isVariable(t))
  }

  lemma {:induction false} FieldsAreClean(s: string, cur: string)
    requires cur == "" || Plain(cur)
    ensures forall t <- FieldsFrom(Spread(s), cur) :: Clean(t)
  {
    if s != "" {
      var rest := Spread(s[1..]);
      if IsDelim(s[0]) {
        var d := s[0];
        assert Spread(s) == [' ', d, ' '] + rest;
        assert ([' ', d, ' '] + rest)[1..] == [d, ' '] + rest;
        assert ([d, ' '] + rest)[1..] == [' '] + rest;
        assert ([' '] + rest)[1..] == rest;
        assert !IsSpace(d);
        assert FieldsFrom([d, ' '] + rest, "") == FieldsFrom([' '] + rest, "" + [d]);
        assert FieldsFrom([' '] + rest, [d]) == [[d]] + FieldsFrom(rest, "");
        FieldsAreClean(s[1..], "");
      } else {
        assert Spread(s) == [s[0]] + rest;
        assert ([s[0]] + rest)[1..] == rest;
        if IsSpace(s[0]) {
          FieldsAreClean(s[1..], "");
        } else {
          FieldsAreClean(s[1..], cur + [s[0]]);
        }
      }
    }
  }

  lemma {:induction false} BlankIsNormal(ts: Tokens, isVariable: string -> bool)
    requires forall t <- ts :: Clean(t)
    ensures Normal(Blank(ts, isVariable), isVariable)
  {
    if ts != [] {
      assert Plain(WILDCARD);
      assert forall t <- ts[1..] :: t in ts;
      BlankIsNormal(ts[1..], isVariable);
    }
  }

  /** Every message tokenizes to a normal template. */
  lemma TokenizeIsNormal(s: string, isVariable: string -> bool)
    ensures Normal(Tokenize(s, isVariable), isVariable)
  {
    if s != "" {
      FieldsAreClean(StripControl(s), "");
      BlankIsNormal(FieldsFrom(Spread(StripControl(s)), ""), isVariable);
    }
  }

  // ---- reading a template back ----------------------------------------------------------

  lemma {:induction false} BlankNormal(ts: Tokens, isVariable: string -> bool)
    requires Normal(ts, isVariable)
    ensures Blank(ts, isVariable) == ts
  {
    if ts != [] {
      assert ts[0] in ts && forall t <- ts[1..] :: t in ts;
      BlankNormal(ts[1..], isVariable);
    }
  }

  /** Text that stripControlChars leaves alone: no control whitespace, no double
      space, no space at either end. */
  predicate Tidy(s: string)
  {
    && (forall c <- s :: IsSpace(c) ==> c == ' ')
    && (forall i :: 0 <= i < |s| - 1 ==> !(s[i] == ' ' && s[i + 1] == ' '))
    && (s != "" ==> s[0] != ' ' && s[|s| - 1] != ' ')
  }

  lemma {:induction false} ReplaceCrLfTidy(s: string)
    requires forall c <- s :: IsSpace(c) ==> c == ' '
    ensures ReplaceCrLf(s) == s
  {
    if s != "" {
      assert s[0] in s && forall c <- s[1..] :: c in s;
      ReplaceCrLfTidy(s[1..]);
    }
  }

  lemma {:induction false} ReplaceCharTidy(s: string, c: char)
    requires c !in s
    ensures ReplaceChar(s, c) == s
  {
    if s != "" { ReplaceCharTidy(s[1..], c); }
  }

  lemma {:induction false} CollapseTidy(s: string)
    requires forall i :: 0 <= i < |s| - 1 ==> !(s[i] == ' ' && s[i + 1] == ' ')
    ensures Collapse(s) == s
  {
    if s != "" {
      forall i | 0 <= i < |s[1..]| - 1 ensures !(s[1..][i] == ' ' && s[1..][i + 1] == ' ') {
        assert s[1..][i] == s[i + 1] && s[1..][i + 1] == s[i + 2];
      }
      CollapseTidy(s[1..]);
    }
  }

  lemma StripTidy(s: string)
    requires Tidy(s)
    ensures StripControl(s) == s
  {
    ReplaceCrLfTidy(s);
    assert IsSpace('\n') && IsSpace('\t');
    ReplaceCharTidy(s, '\n');
    ReplaceCharTidy(s, '\t');
    CollapseTidy(s);
    if s != "" {
      assert s[0] in s && s[|s| - 1] in s;
    }
  }

  lemma CleanVisible(t: string)
    requires Clean(t)
    ensures t != "" && forall c <- t :: !IsSpace(c)
  {
  }

  lemma {:induction false} JoinTidy(ts: Tokens)
    requires forall t <- ts :: Clean(t)
    ensures Tidy(Join(ts)) && (ts != [] ==> Join(ts) != "")
  {
    if ts != [] {
      var a := ts[0];
      assert a in ts;
      CleanVisible(a);
      assert forall i :: 0 <= i < |a| ==> a[i] in a;
      if |ts| > 1 {
        assert forall t <- ts[1..] :: t in ts;
        JoinTidy(ts[1..]);
        var b := Join(ts[1..]);
        var s := a + " " + b;
        assert Join(ts) == s;
        forall c | c in s ensures IsSpace(c) ==> c == ' ' {
          if c in a { } else if c in b { } else { assert c == ' '; }
        }
        forall i | 0 <= i < |s| - 1 ensures !(s[i] == ' ' && s[i + 1] == ' ') {
          if i < |a| {
            assert s[i] == a[i];
          } else if i > |a| {
            assert s[i] == b[i - |a| - 1] && s[i + 1] == b[i - |a|];
          } else {
            assert s[i + 1] == b[0];
          }
        }
      }
    }
  }

  /** A plain token passes through spreading and splitting whole. */
  lemma {:induction false} PlainField(t: string, rest: string, cur: string)
    requires forall c <- t :: !IsSpace(c) && !IsDelim(c)
    ensures FieldsFrom(Spread(t + rest), cur) == FieldsFrom(Spread(rest), cur + t)
  {
    if t == "" {
      assert t + rest == rest && cur + t == cur;
    } else {
      assert t[0] in t && forall c <- t[1..] :: c in t;
      assert (t + rest)[1..] == t[1..] + rest;
      var tail := Spread(t[1..] + rest);
      assert Spread(t + rest) == [t[0]] + tail;
      assert ([t[0]] + tail)[1..] == tail;
      PlainField(t[1..], rest, cur + [t[0]]);
      assert cur + [t[0]] + t[1..] == cur + t;
    }
  }

  lemma DelimField(d: char, rest: string)
    requires IsDelim(d)
    ensures FieldsFrom(Spread([d] + rest), "") == [[d]] + FieldsFrom(Spread(rest), "")
  {
    var tail := Spread(rest);
    assert ([d] + rest)[1..] == rest;
    assert Spread([d] + rest) == [' ', d, ' '] + tail;
    assert ([' ', d, ' '] + tail)[1..] == [d, ' '] + tail;
    assert ([d, ' '] + tail)[1..] == [' '] + tail;
    assert ([' '] + tail)[1..] == tail;
    assert FieldsFrom([' ', d, ' '] + tail, "") == FieldsFrom([d, ' '] + tail, "");
    assert !IsSpace(d);
    assert FieldsFrom([d, ' '] + tail, "") == FieldsFrom([' '] + tail, "" + [d]);
    assert "" + [d] == [d];
    assert FieldsFrom([' '] + tail, [d]) == [[d]] + FieldsFrom(tail, "");
  }

  lemma SpaceField(rest: string, cur: string)
    ensures FieldsFrom(Spread(" " + rest), cur) == (if cur == "" then [] else [cur]) + FieldsFrom(Spread(rest), "")
  {
    assert (" " + rest)[1..] == rest;
    assert Spread(" " + rest) == " " + Spread(rest);
    assert (" " + Spread(rest))[1..] == Spread(rest);
  }

  lemma {:induction false} FieldsOfJoin(ts: Tokens)
    requires forall t <- ts :: Clean(t)
    ensures FieldsFrom(Spread(Join(ts)), "") == ts
  {
    if ts != [] {
      var a := ts[0];
      assert a in ts && forall t <- ts[1..] :: t in ts;
      var rest := if |ts| == 1 then "" else " " + Join(ts[1..]);
      assert Join(ts) == a + rest;
      if |ts| > 1 { FieldsOfJoin(ts[1..]); }
      FieldThen(a, ts[1..], rest);
      assert ts == [a] + ts[1..];
    }
  }

  /** A clean token at the front of a joined text is its first field. */
  lemma FieldThen(a: string, more: Tokens, rest: string)
    requires Clean(a) && rest == (if more == [] then "" else " " + Join(more))
    requires more != [] ==> FieldsFrom(Spread(Join(more)), "") == more
    ensures FieldsFrom(Spread(a + rest), "") == [a] + more
  {
    if more != [] { SpaceField(Join(more), ""); }
    if Plain(a) {
      PlainField(a, rest, "");
      assert "" + a == a;
      if more != [] { SpaceField(Join(more), a); }
    } else {
      assert a == [a[0]];
      DelimField(a[0], rest);
    }
  }

  /** Restart round trip: a normal template, stored as its space-joined text,
      tokenizes back to itself. */
  lemma TokenizeJoin(ts: Tokens, isVariable: string -> bool)
    requires Normal(ts, isVariable)
    ensures Tokenize(Join(ts), isVariable) == ts
  {
    JoinTidy(ts);
    StripTidy(Join(ts));
    FieldsOfJoin(ts);
    BlankNormal(ts, isVariable);
  }

  /** So the text a template is stored or hashed as determines it. */
  lemma JoinInjective(a: Tokens, b: Tokens, isVariable: string -> bool)
    requires Normal(a, isVariable) && Normal(b, isVariable) && Join(a) == Join(b)
    ensures a == b
  {
    TokenizeJoin(a, isVariable);
    TokenizeJoin(b, isVariable);
  }
}
