/** What a message's tokens are: its words and delimiters in order, the variable ones
    blanked. The laws determine tokenizing on every message, whatever the steps it takes. */
module Words {
  import opened Tokenizer

  // ---- the fields of a text, character by character -----------------------------------

  function Flush(cur: string): Tokens { if cur == "" then [] else [cur] }

  function Fields(s: string, cur: string): Tokens { FieldsFrom(Spread(s), cur) }

  lemma FieldStep(c: char, rest: string, cur: string)
    ensures Fields([c] + rest, cur)
      == if IsDelim(c) then Flush(cur) + ([[c]] + Fields(rest, ""))
         else if IsSpace(c) then Flush(cur) + Fields(rest, "")
         else Fields(rest, cur + [c])
  {
    assert ([c] + rest)[1..] == rest;
    var tail := Spread(rest);
    if IsDelim(c) {
      assert !IsSpace(c);
      assert Spread([c] + rest) == [' ', c, ' '] + tail;
      assert ([' ', c, ' '] + tail)[1..] == [c, ' '] + tail;
      assert ([c, ' '] + tail)[1..] == [' '] + tail;
      assert ([' '] + tail)[1..] == tail;
      assert FieldsFrom([' ', c, ' '] + tail, cur) == Flush(cur) + FieldsFrom([c, ' '] + tail, "");
      assert "" + [c] == [c];
      assert FieldsFrom([c, ' '] + tail, "") == FieldsFrom([' '] + tail, [c]);
      assert FieldsFrom([' '] + tail, [c]) == [[c]] + FieldsFrom(tail, "");
    } else {
      assert Spread([c] + rest) == [c] + tail;
      assert ([c] + tail)[1..] == tail;
    }
  }

  lemma FieldSpace(c: char, rest: string, cur: string)
    requires IsSpace(c)
    ensures Fields([c] + rest, cur) == Flush(cur) + Fields(rest, "")
  {
    FieldStep(c, rest, cur);
  }

  /** A space or a delimiter splits the fields of what is left and right of it. */
  lemma {:induction false} FieldsSplit(a: string, c: char, b: string, cur: string)
    requires IsSpace(c) || IsDelim(c)
    ensures Fields(a + [c] + b, cur) == Fields(a, cur) + ((if IsDelim(c) then [[c]] else []) + Fields(b, ""))
  {
    if a == "" {
      assert a + [c] + b == [c] + b;
      FieldStep(c, b, cur);
    } else {
      var x, more := a[0], a[1..];
      assert a == [x] + more && a + [c] + b == [x] + (more + [c] + b);
      FieldStep(x, more, cur);
      FieldStep(x, more + [c] + b, cur);
      FieldsSplit(more, c, b, if IsDelim(x) || IsSpace(x) then "" else cur + [x]);
    }
  }

  // ---- stripping changes no field --------------------------------------------------------

  /** Texts with the same first character have the same fields when their rests have. */
  lemma SameHead(c: char, x: string, y: string, cur: string)
    requires forall w: string :: Fields(x, w) == Fields(y, w)
    ensures Fields([c] + x, cur) == Fields([c] + y, cur)
  {
    FieldStep(c, x, cur);
    FieldStep(c, y, cur);
  }

  lemma {:induction false} CrLfKeepsFields(s: string, cur: string)
    ensures Fields(ReplaceCrLf(s), cur) == Fields(s, cur)
    decreases |s|
  {
    if |s| >= 2 && s[0] == '\r' && s[1] == '\n' {
      var rest := s[2..];
      assert s == ['\r'] + (['\n'] + rest);
      CrLfKeepsFields(rest, "");
      FieldSpace('\r', ['\n'] + rest, cur);
      FieldSpace('\n', rest, "");
      FieldSpace(' ', ReplaceCrLf(rest), cur);
    } else if s != "" {
      var rest := s[1..];
      forall w: string ensures Fields(ReplaceCrLf(rest), w) == Fields(rest, w) { CrLfKeepsFields(rest, w); }
      SameHead(s[0], ReplaceCrLf(rest), rest, cur);
      assert s == [s[0]] + rest;
    }
  }

  lemma {:induction false} ReplaceKeepsFields(s: string, c: char, cur: string)
    requires IsSpace(c)
    ensures Fields(ReplaceChar(s, c), cur) == Fields(s, cur)
    decreases |s|
  {
    if s != "" {
      var rest := s[1..];
      assert s == [s[0]] + rest;
      forall w: string ensures Fields(ReplaceChar(rest, c), w) == Fields(rest, w) { ReplaceKeepsFields(rest, c, w); }
      if s[0] == c {
        FieldSpace(' ', ReplaceChar(rest, c), cur);
        FieldSpace(c, rest, cur);
      } else {
        SameHead(s[0], ReplaceChar(rest, c), rest, cur);
      }
    }
  }

  lemma {:induction false} CollapseKeepsFields(s: string, cur: string)
    ensures Fields(Collapse(s), cur) == Fields(s, cur)
    decreases |s|
  {
    if s != "" {
      var rest := s[1..];
      assert s == [s[0]] + rest;
      forall w: string ensures Fields(Collapse(rest), w) == Fields(rest, w) { CollapseKeepsFields(rest, w); }
      if |s| >= 2 && s[0] == ' ' && s[1] == ' ' {
        assert rest == [' '] + rest[1..];
        FieldSpace(' ', rest, cur);
        FieldSpace(' ', rest[1..], "");
        FieldSpace(' ', rest[1..], cur);
      } else {
        SameHead(s[0], Collapse(rest), rest, cur);
      }
    }
  }

  lemma {:induction false} TrimLeftKeepsFields(s: string)
    ensures Fields(TrimLeft(s), "") == Fields(s, "")
  {
    if s != "" && IsSpace(s[0]) {
      assert s == [s[0]] + s[1..];
      FieldSpace(s[0], s[1..], "");
      TrimLeftKeepsFields(s[1..]);
    }
  }

  lemma {:induction false} TrimRightKeepsFields(s: string)
    ensures Fields(TrimRight(s), "") == Fields(s, "")
  {
    if s != "" && IsSpace(s[|s| - 1]) {
      var front, c := s[..|s| - 1], s[|s| - 1];
      assert s == front + [c] + "";
      FieldsSplit(front, c, "", "");
      SpaceIsNoDelim(c);
      TrimRightKeepsFields(front);
    }
  }

  lemma StripKeepsFields(s: string)
    ensures Fields(StripControl(s), "") == Fields(s, "")
  {
    var a := ReplaceCrLf(s);
    var b := ReplaceChar(a, '\n');
    var c := ReplaceChar(b, '\t');
    var d := Collapse(c);
    CrLfKeepsFields(s, "");
    ReplaceKeepsFields(a, '\n', "");
    ReplaceKeepsFields(b, '\t', "");
    CollapseKeepsFields(c, "");
    TrimLeftKeepsFields(d);
    TrimRightKeepsFields(TrimLeft(d));
  }

  // ---- tokens are the fields, blanked -----------------------------------------------------

  /** What one word becomes. */
  function TokenOf(w: string, isVariable: string -> bool): string { if isVariable(w) then WILDCARD else w }

  lemma {:induction false} BlankAt(ts: Tokens, isVariable: string -> bool, i: nat)
    requires i < |ts|
    ensures |Blank(ts, isVariable)| == |ts| && Blank(ts, isVariable)[i] == TokenOf(ts[i], isVariable)
  {
    if i > 0 { BlankAt(ts[1..], isVariable, i - 1); } else if |ts| > 1 { BlankAt(ts[1..], isVariable, 0); }
  }

  lemma BlankSize(ts: Tokens, isVariable: string -> bool)
    ensures |Blank(ts, isVariable)| == |ts|
  {
    if ts != [] { BlankAt(ts, isVariable, 0); }
  }

  lemma {:induction false} BlankAppend(a: Tokens, b: Tokens, isVariable: string -> bool)
    ensures Blank(a + b, isVariable) == Blank(a, isVariable) + Blank(b, isVariable)
  {
    if a == [] {
      assert a + b == b;
    } else {
      assert (a + b)[1..] == a[1..] + b;
      BlankAppend(a[1..], b, isVariable);
    }
  }

  lemma TokensAreFields(s: string, isVariable: string -> bool)
    ensures Tokenize(s, isVariable) == Blank(Fields(s, ""), isVariable)
  {
    StripKeepsFields(s);
  }

  /** The words of a message: its tokens when nothing is a variable. */
  function WordsOf(s: string): Tokens { Tokenize(s, (t: string) => false) }

  lemma {:induction false} BlankNothing(ts: Tokens)
    ensures Blank(ts, (t: string) => false) == ts
  {
    if ts != [] { BlankNothing(ts[1..]); }
  }

  lemma WordsAreFields(s: string)
    ensures WordsOf(s) == Fields(s, "")
  {
    TokensAreFields(s, (t: string) => false);
    BlankNothing(Fields(s, ""));
  }

  // ---- the laws ----------------------------------------------------------------------------

  /** Tokens correspond one to one, in order, to the words; a variable is blanked to the
      wildcard in its place, every other word stays as it is. */
  lemma OneTokenPerWord(s: string, isVariable: string -> bool)
    ensures |Tokenize(s, isVariable)| == |WordsOf(s)|
    ensures forall i :: 0 <= i < |WordsOf(s)| ==>
      Tokenize(s, isVariable)[i] == if isVariable(WordsOf(s)[i]) then WILDCARD else WordsOf(s)[i]
  {
    TokensAreFields(s, isVariable);
    WordsAreFields(s);
    BlankSize(Fields(s, ""), isVariable);
    forall i | 0 <= i < |WordsOf(s)|
      ensures Tokenize(s, isVariable)[i] == TokenOf(WordsOf(s)[i], isVariable) {
      BlankAt(Fields(s, ""), isVariable, i);
    }
  }

  /** A run of ordinary characters is one word. */
  lemma PlainIsOneToken(w: string, isVariable: string -> bool)
    requires Plain(w)
    ensures Tokenize(w, isVariable) == [if isVariable(w) then WILDCARD else w]
  {
    TokensAreFields(w, isVariable);
    PlainField(w, "", "");
    assert w + "" == w && "" + w == w;
    assert Blank([w], isVariable) == [TokenOf(w, isVariable)] + Blank([], isVariable);
  }

  lemma NothingHasNoTokens(isVariable: string -> bool)
    ensures Tokenize("", isVariable) == []
  {
  }

  /** White space of any kind separates words and is no token itself ... */
  lemma TokensSplitAtSpace(a: string, c: char, b: string, isVariable: string -> bool)
    requires IsSpace(c)
    ensures Tokenize(a + [c] + b, isVariable) == Tokenize(a, isVariable) + Tokenize(b, isVariable)
  {
    SplitTokens(a, c, b, isVariable);
    SpaceIsNoDelim(c);
    assert [] + Tokenize(b, isVariable) == Tokenize(b, isVariable);
  }

  lemma SpaceIsNoDelim(c: char)
    requires IsSpace(c)
    ensures !IsDelim(c)
  {
  }

  /** ... and a delimiter separates words and is one. */
  lemma TokensSplitAtDelim(a: string, c: char, b: string, isVariable: string -> bool)
    requires IsDelim(c)
    ensures Tokenize(a + [c] + b, isVariable)
         == Tokenize(a, isVariable) + [if isVariable([c]) then WILDCARD else [c]] + Tokenize(b, isVariable)
  {
    SplitTokens(a, c, b, isVariable);
  }

  lemma SplitTokens(a: string, c: char, b: string, isVariable: string -> bool)
    requires IsSpace(c) || IsDelim(c)
    ensures Tokenize(a + [c] + b, isVariable) == Tokenize(a, isVariable)
      + ((if IsDelim(c) then [TokenOf([c], isVariable)] else []) + Tokenize(b, isVariable))
  {
    TokensAreFields(a, isVariable);
    TokensAreFields(b, isVariable);
    TokensAreFields(a + [c] + b, isVariable);
    FieldsSplit(a, c, b, "");
    var mid := if IsDelim(c) then [[c]] else [];
    BlankAppend(Fields(a, ""), mid + Fields(b, ""), isVariable);
    BlankAppend(mid, Fields(b, ""), isVariable);
  }

  // ---- the words spell the message ----------------------------------------------------------

  function Visible(s: string): string
  {
    if s == "" then "" else (if IsSpace(s[0]) then "" else [s[0]]) + Visible(s[1..])
  }

  function Spelled(ts: Tokens): string { if ts == [] then "" else ts[0] + Spelled(ts[1..]) }

  lemma {:induction false} FieldsSpell(s: string, cur: string)
    ensures Spelled(Fields(s, cur)) == cur + Visible(s)
    decreases |s|
  {
    if s != "" {
      var c, rest := s[0], s[1..];
      assert s == [c] + rest;
      FieldStep(c, rest, cur);
      if IsDelim(c) {
        assert !IsSpace(c);
        FieldsSpell(rest, "");
        SpelledFront([c], Fields(rest, ""));
        SpelledFlush(cur, [[c]] + Fields(rest, ""));
      } else if IsSpace(c) {
        FieldsSpell(rest, "");
        SpelledFlush(cur, Fields(rest, ""));
      } else {
        FieldsSpell(rest, cur + [c]);
      }
    }
  }

  lemma SpelledFront(t: string, more: Tokens)
    ensures Spelled([t] + more) == t + Spelled(more)
  {
    assert ([t] + more)[1..] == more;
  }

  lemma SpelledFlush(cur: string, more: Tokens)
    ensures Spelled(Flush(cur) + more) == cur + Spelled(more)
  {
    if cur == "" { assert [] + more == more; } else { SpelledFront(cur, more); }
  }

  /** Put together, the words are the message without its white space; each is a delimiter
      or a run of ordinary characters. */
  lemma WordsSpellMessage(s: string)
    ensures Spelled(WordsOf(s)) == Visible(s) && forall w <- WordsOf(s) :: Clean(w)
  {
    WordsAreFields(s);
    FieldsSpell(s, "");
    FieldsAreClean(s, "");
  }
}
