/** What the scanner masks in a run: completeness, stated over the text and over which
    texts are addresses. By RedactsFieldwise it carries over to every field between
    separators. */
module RedactRuns {
  import opened Redact

  /** A run that is scanned from its first byte. */
  ghost predicate Run(s: string)
  {
    s != "" && s[0] != '.' && forall c <- s :: RunChar(c)
  }

  /** A run short enough to be searched. */
  ghost predicate ShortRun(s: string) { Run(s) && |s| <= 128 }

  predicate Stop(c: char) { c == ':' || c == '.' }

  ghost predicate StartsAddress(isAddr: IsAddress, s: string)
  {
    exists x: string, y: string :: s == x + y && x != "" && isAddr(x)
  }

  /** An address, and after it nothing but colons and dots, or one separator and then a tail
      that neither repeats it nor starts another address. */
  ghost predicate Closes(isAddr: IsAddress, run: string, n: nat)
    requires 0 < n <= |run|
  {
    && isAddr(run[..n])
    && ((forall c <- run[n..] :: Stop(c))
        || (n + 1 < |run| && Stop(run[n]) && run[n + 1] != run[n] && !StartsAddress(isAddr, run[n + 1..])))
  }

  /** An address, one separator, and another address. */
  ghost predicate Glues(isAddr: IsAddress, run: string, n: nat)
    requires 0 < n <= |run|
  {
    isAddr(run[..n]) && n < |run| && Stop(run[n]) && StartsAddress(isAddr, run[n + 1..])
  }

  /** No address in the run closes or is glued to another. */
  ghost predicate Unfinished(isAddr: IsAddress, run: string)
  {
    forall n :: 0 < n <= |run| ==> !Closes(isAddr, run, n) && !Glues(isAddr, run, n)
  }

  // ---- how far the scanner masks ----------------------------------------------------------

  lemma {:induction false} WholeRun(s: string)
    requires forall c <- s :: RunChar(c)
    ensures RunLen(s) == |s|
  {
    if s != "" {
      assert s[0] in s && forall c <- s[1..] :: c in s;
      WholeRun(s[1..]);
    }
  }

  lemma PrefixStarts(isAddr: IsAddress, s: string)
    ensures HasPrefix(isAddr, s) <==> StartsAddress(isAddr, s)
  {
    if HasPrefix(isAddr, s) {
      var n :| 0 < n <= |s| && isAddr(s[..n]);
      assert s == s[..n] + s[n..];
    }
    if StartsAddress(isAddr, s) {
      var x: string, y: string :| s == x + y && x != "" && isAddr(x);
      assert s[..|x|] == x;
    }
  }

  lemma CutsIffCloses(isAddr: IsAddress, run: string, n: nat)
    requires 0 < n <= |run|
    ensures CutsAt(isAddr, run, n) <==> Closes(isAddr, run, n)
  {
    if n < |run| {
      PrefixStarts(isAddr, run[n + 1..]);
    } else {
      assert run[n..] == [];
    }
  }

  lemma SplitsIffGlues(isAddr: IsAddress, run: string, n: nat)
    requires 0 < n < |run|
    ensures SplitsAt(isAddr, run, n) <==> Glues(isAddr, run, n)
  {
    PrefixStarts(isAddr, run[n + 1..]);
  }

  lemma {:induction false} LongestCutIs(isAddr: IsAddress, run: string, top: nat, n: nat)
    requires 0 < n <= top <= |run| && Closes(isAddr, run, n)
    requires forall k :: n < k <= top ==> !Closes(isAddr, run, k)
    ensures LongestCut(isAddr, run, top) == n
  {
    CutsIffCloses(isAddr, run, top);
    if top > n { LongestCutIs(isAddr, run, top - 1, n); }
  }

  lemma {:induction false} NoCut(isAddr: IsAddress, run: string, top: nat)
    requires top <= |run| && forall k :: 0 < k <= top ==> !Closes(isAddr, run, k)
    ensures LongestCut(isAddr, run, top) == 0
  {
    if top > 0 {
      CutsIffCloses(isAddr, run, top);
      NoCut(isAddr, run, top - 1);
    }
  }

  lemma {:induction false} FirstSplitIs(isAddr: IsAddress, run: string, from: nat, n: nat)
    requires 0 < from <= n <= |run| && Glues(isAddr, run, n)
    requires forall k :: from <= k < n ==> !Glues(isAddr, run, k)
    ensures FirstSplit(isAddr, run, from) == n
    decreases n - from
  {
    SplitsIffGlues(isAddr, run, from);
    if from < n { FirstSplitIs(isAddr, run, from + 1, n); }
  }

  lemma {:induction false} NoSplit(isAddr: IsAddress, run: string, from: nat)
    requires 0 < from && forall k :: from <= k <= |run| ==> !Glues(isAddr, run, k)
    ensures FirstSplit(isAddr, run, from) == 0
    decreases |run| - from
  {
    if from + 1 < |run| {
      SplitsIffGlues(isAddr, run, from);
      NoSplit(isAddr, run, from + 1);
    }
  }

  /** A short run is masked up to where its address was found to end, or shown whole. */
  lemma MatchOutput(isAddr: IsAddress, run: string, m: nat)
    requires ShortRun(run) && m == MatchEnd(isAddr, run)
    ensures Redacted(isAddr, run) == if m == 0 then run else MASK + Scan(isAddr, WordByte(run[m - 1]), run[m..])
  {
    FirstOfRun(isAddr, run, m);
    if m == 0 { OneSegment(isAddr, run, Kept(run)); } else { MaskedOutput(isAddr, run, m); }
  }

  lemma MaskedOutput(isAddr: IsAddress, run: string, m: nat)
    requires 0 < m <= |run| && FirstSegment(isAddr, false, run) == Masked(run[..m])
    ensures Redacted(isAddr, run) == MASK + Scan(isAddr, WordByte(run[m - 1]), run[m..])
  {
    LastByte(run, m);
    MaskFirst(isAddr, run, Masked(run[..m]), run[m..]);
  }

  lemma LastByte(s: string, m: nat)
    requires 0 < m <= |s|
    ensures EndsInWord(s[..m]) == WordByte(s[m - 1])
  {
  }

  lemma MaskFirst(isAddr: IsAddress, s: string, g: Segment, rest: string)
    requires s != "" && g == FirstSegment(isAddr, false, s) && g.Masked? && rest == s[|g.text|..]
    ensures Redacted(isAddr, s) == MASK + Scan(isAddr, EndsInWord(g.text), rest)
  {
    ScanFirst(isAddr, false, s, g, rest);
  }

  lemma FirstOfRun(isAddr: IsAddress, run: string, m: nat)
    requires ShortRun(run) && m == MatchEnd(isAddr, run)
    ensures FirstSegment(isAddr, false, run) == if m == 0 then Kept(run) else Masked(run[..m])
  {
    WholeRun(run);
    assert run[0] in run && run[..|run|] == run;
    if 0 < m < |run| { StopsAfterMatch(isAddr, run); }
  }

  lemma StopsAfterMatch(isAddr: IsAddress, run: string)
    requires 0 < MatchEnd(isAddr, run) < |run|
    ensures Stop(run[MatchEnd(isAddr, run)])
  {
    var m := MatchEnd(isAddr, run);
    MatchCutsOrSplits(isAddr, run, m);
    if CutsAt(isAddr, run, m) { assert run[m..][0] in run[m..]; }
  }

  // ---- the laws ---------------------------------------------------------------------------

  /** The longest address that closes in its run is masked, and the scan goes on after it. */
  lemma LongestCloseIsMasked(isAddr: IsAddress, run: string, n: nat)
    requires ShortRun(run) && 0 < n <= |run| && Closes(isAddr, run, n)
    requires forall k :: n < k <= |run| ==> !Closes(isAddr, run, k)
    ensures Redacted(isAddr, run) == MASK + Scan(isAddr, WordByte(run[n - 1]), run[n..])
  {
    LongestCutIs(isAddr, run, |run|, n);
    MatchOutput(isAddr, run, n);
  }

  /** Where none closes, the first one glued to another is. */
  lemma FirstGluedIsMasked(isAddr: IsAddress, run: string, n: nat)
    requires ShortRun(run) && 0 < n <= |run| && Glues(isAddr, run, n)
    requires forall k :: 0 < k <= |run| ==> !Closes(isAddr, run, k)
    requires forall k :: 0 < k < n ==> !Glues(isAddr, run, k)
    ensures Redacted(isAddr, run) == MASK + Scan(isAddr, WordByte(run[n - 1]), run[n..])
  {
    NoCut(isAddr, run, |run|);
    FirstSplitIs(isAddr, run, 1, n);
    MatchOutput(isAddr, run, n);
  }

  lemma MaskIsNoRun(run: string, rest: string)
    requires Run(run)
    ensures run != MASK + rest
  {
    assert run[0] in run;
  }

  /** A short run is shown whole exactly when no address in it closes or is glued to another. */
  lemma RunShownIff(isAddr: IsAddress, run: string)
    requires ShortRun(run)
    ensures Redacted(isAddr, run) == run <==> Unfinished(isAddr, run)
  {
    FoundIff(isAddr, run);
    RunKeptIff(isAddr, run, MatchEnd(isAddr, run));
  }

  lemma RunKeptIff(isAddr: IsAddress, run: string, m: nat)
    requires ShortRun(run) && m == MatchEnd(isAddr, run)
    ensures Redacted(isAddr, run) == run <==> m == 0
  {
    MatchOutput(isAddr, run, m);
    if m > 0 { MaskIsNoRun(run, Scan(isAddr, WordByte(run[m - 1]), run[m..])); }
  }

  lemma FoundIff(isAddr: IsAddress, run: string)
    requires |run| <= 128
    ensures MatchEnd(isAddr, run) == 0 <==> Unfinished(isAddr, run)
  {
    if MatchEnd(isAddr, run) == 0 {
      forall n | 0 < n <= |run| ensures !Closes(isAddr, run, n) && !Glues(isAddr, run, n)
          { NothingFound(isAddr, run, n); }
    } else {
      MatchClosesOrGlues(isAddr, run);
    }
  }

  lemma MatchClosesOrGlues(isAddr: IsAddress, run: string)
    requires MatchEnd(isAddr, run) > 0
    ensures Closes(isAddr, run, MatchEnd(isAddr, run)) || Glues(isAddr, run, MatchEnd(isAddr, run))
  {
    var m := MatchEnd(isAddr, run);
    MatchCutsOrSplits(isAddr, run, m);
    CutsIffCloses(isAddr, run, m);
    if m < |run| { SplitsIffGlues(isAddr, run, m); }
  }

  /** What is found is not shorter than any address that closes. */
  lemma NothingFound(isAddr: IsAddress, run: string, n: nat)
    requires |run| <= 128 && 0 < n <= |run|
    ensures Closes(isAddr, run, n) ==> MatchEnd(isAddr, run) >= n && Closes(isAddr, run, MatchEnd(isAddr, run))
    ensures Glues(isAddr, run, n) ==> MatchEnd(isAddr, run) > 0
  {
    CutsIffCloses(isAddr, run, n);
    LongestCutLeast(isAddr, run, |run|, n);
    var cut := LongestCut(isAddr, run, |run|);
    if cut > 0 {
      LongestCutCuts(isAddr, run, |run|);
      CutsIffCloses(isAddr, run, cut);
    }
    if Glues(isAddr, run, n) {
      SplitsIffGlues(isAddr, run, n);
      FirstSplitSome(isAddr, run, 1, n);
    }
  }

  lemma {:induction false} LongestCutLeast(isAddr: IsAddress, run: string, top: nat, n: nat)
    requires 0 < n <= top <= |run|
    ensures CutsAt(isAddr, run, n) ==> LongestCut(isAddr, run, top) >= n
  {
    if top > n { LongestCutLeast(isAddr, run, top - 1, n); }
  }

  lemma {:induction false} FirstSplitSome(isAddr: IsAddress, run: string, from: nat, n: nat)
    requires 0 < from <= n < |run| - 1 && SplitsAt(isAddr, run, n)
    ensures FirstSplit(isAddr, run, from) > 0
    decreases n - from
  {
    if from < n { FirstSplitSome(isAddr, run, from + 1, n); }
  }

  /** The output is a mask for the address of `m` bytes, and then the scan of what is behind it. */
  ghost predicate MaskedUpTo(isAddr: IsAddress, run: string, m: nat)
    requires 0 < m <= |run|
  {
    isAddr(run[..m]) && Redacted(isAddr, run) == MASK + Scan(isAddr, WordByte(run[m - 1]), run[m..])
  }

  /** No address that closes in its run is shown: what is masked reaches at least to its end. */
  lemma ClosingAddressIsMasked(isAddr: IsAddress, run: string, n: nat)
    requires ShortRun(run) && 0 < n <= |run| && Closes(isAddr, run, n)
    ensures exists m :: n <= m <= |run| && MaskedUpTo(isAddr, run, m)
  {
    NothingFound(isAddr, run, n);
    MatchIsMasked(isAddr, run);
  }

  lemma MatchIsMasked(isAddr: IsAddress, run: string)
    requires ShortRun(run) && MatchEnd(isAddr, run) > 0
    ensures MaskedUpTo(isAddr, run, MatchEnd(isAddr, run))
  {
    MatchCutsOrSplits(isAddr, run, MatchEnd(isAddr, run));
    MatchOutput(isAddr, run, MatchEnd(isAddr, run));
  }

  /** An address with colons and dots after it, as at the end of a clause. */
  lemma AddressThenPunctuation(isAddr: IsAddress, a: string, p: string)
    requires a != "" && isAddr(a) && ShortRun(a + p) && forall c <- p :: Stop(c)
    ensures exists m :: |a| <= m <= |a + p| && MaskedUpTo(isAddr, a + p, m)
  {
    assert (a + p)[..|a|] == a && (a + p)[|a|..] == p;
    ClosingAddressIsMasked(isAddr, a + p, |a|);
  }

  /** An address, one separator, and a tail such as a port that starts no address. */
  lemma AddressThenTail(isAddr: IsAddress, a: string, c: char, t: string)
    requires a != "" && isAddr(a) && Stop(c) && t != "" && t[0] != c && !StartsAddress(isAddr, t)
    requires ShortRun(a + ([c] + t))
    ensures exists m :: |a| <= m <= |a + ([c] + t)| && MaskedUpTo(isAddr, a + ([c] + t), m)
  {
    var run := a + ([c] + t);
    assert run[..|a|] == a && run[|a|] == c && run[|a| + 1..] == t;
    ClosingAddressIsMasked(isAddr, run, |a|);
  }

  // ---- what follows a mask -----------------------------------------------------------------

  /** A byte that starts no run, or stands inside a word, is shown. */
  lemma SkippedIsShown(isAddr: IsAddress, inWord: bool, c: char, s: string)
    requires (!Hex(c) && c != ':') || inWord
    ensures Scan(isAddr, inWord, [c] + s) == [c] + Scan(isAddr, WordByte(c), s)
  {
    assert ([c] + s)[..1] == [c] && ([c] + s)[1..] == s;
    ScanFirst(isAddr, inWord, [c] + s, Kept([c]), s);
  }

  /** In a word no address starts: its letters and digits are shown to its end. */
  lemma {:induction false} WordIsShown(isAddr: IsAddress, inWord: bool, w: string, s: string)
    requires w != "" && (forall c <- w :: WordByte(c)) && (!Hex(w[0]) || inWord)
    ensures Scan(isAddr, inWord, w + s) == w + Scan(isAddr, true, s)
    decreases |w|
  {
    var c, more := w[0], w[1..];
    assert c in w && w == [c] + more && w + s == [c] + (more + s);
    SkippedIsShown(isAddr, inWord, c, more + s);
    if more == "" {
      assert more + s == s;
    } else {
      assert forall d <- more :: d in w;
      WordIsShown(isAddr, true, more, s);
      Associate([c], more, Scan(isAddr, true, s));
    }
  }

  /** Two addresses glued by a separator are both masked, where the run starts with no other. */
  lemma GluedAddressesAreMasked(isAddr: IsAddress, a: string, c: char, b: string)
    requires a != "" && isAddr(a) && isAddr(b) && Stop(c) && ShortRun(a + ([c] + b)) && ShortRun(b)
    requires forall n :: 0 < n <= |a + ([c] + b)| && isAddr((a + ([c] + b))[..n]) ==> n == |a|
    requires c == '.' || Hex(a[|a| - 1])
    ensures Redacted(isAddr, a + ([c] + b)) == MASK + ([c] + MASK)
  {
    var run := a + ([c] + b);
    assert run[|a| - 1] == a[|a| - 1] && run[|a|..] == [c] + b;
    GluedIsFound(isAddr, a, c, b);
    MatchOutput(isAddr, run, |a|);
    SeparatorThenAddress(isAddr, WordByte(a[|a| - 1]), c, b);
  }

  lemma SeparatorThenAddress(isAddr: IsAddress, inWord: bool, c: char, b: string)
    requires ((!Hex(c) && c != ':') || inWord) && !WordByte(c) && ShortRun(b) && isAddr(b)
    ensures Scan(isAddr, inWord, [c] + b) == [c] + MASK
  {
    SkippedIsShown(isAddr, inWord, c, b);
    WholeRun(b);
    AddressIsMasked(isAddr, b);
  }

  lemma GluedIsFound(isAddr: IsAddress, a: string, c: char, b: string)
    requires a != "" && isAddr(a) && b != "" && isAddr(b) && Stop(c) && |a + ([c] + b)| <= 128
    requires forall n :: 0 < n <= |a + ([c] + b)| && isAddr((a + ([c] + b))[..n]) ==> n == |a|
    ensures MatchEnd(isAddr, a + ([c] + b)) == |a|
  {
    var run := a + ([c] + b);
    assert run[..|a|] == a && run[|a|] == c && run[|a| + 1..] == b && b == b + "";
    assert StartsAddress(isAddr, b);
    NothingFound(isAddr, run, |a|);
    MatchCutsOrSplits(isAddr, run, MatchEnd(isAddr, run));
  }

  /** What is masked first takes in an address glued to another exactly when an address at
      least as long closes, or no shorter one closes or is glued. */
  lemma GluedIsCoveredIff(isAddr: IsAddress, run: string, n: nat)
    requires ShortRun(run) && 0 < n <= |run| && Glues(isAddr, run, n)
    ensures var g := FirstSegment(isAddr, false, run);
      g.Masked? && (|g.text| >= n <==>
        (exists k :: n <= k <= |run| && Closes(isAddr, run, k))
        || forall k :: 0 < k < n ==> !Closes(isAddr, run, k) && !Glues(isAddr, run, k))
  {
    var m := MatchEnd(isAddr, run);
    FirstOfRun(isAddr, run, m);
    NothingFound(isAddr, run, n);
    MatchClosesOrGlues(isAddr, run);
    if m >= n && !Closes(isAddr, run, m) {
      forall k | 0 < k < n ensures !Closes(isAddr, run, k) && !Glues(isAddr, run, k) { GluedBefore(isAddr, run, m, k); }
    }
    forall k | n <= k <= |run| && Closes(isAddr, run, k) ensures m >= n { NothingFound(isAddr, run, k); }
  }

  /** Nothing before a match that does not close closes or is glued. */
  lemma GluedBefore(isAddr: IsAddress, run: string, m: nat, k: nat)
    requires |run| <= 128 && m == MatchEnd(isAddr, run) && 0 < k < m <= |run| && !Closes(isAddr, run, m)
    ensures !Closes(isAddr, run, k) && !Glues(isAddr, run, k)
  {
    NothingFound(isAddr, run, k);
    if Glues(isAddr, run, k) {
      SplitsIffGlues(isAddr, run, k);
      FirstSplitLeast(isAddr, run, 1, k);
      if LongestCut(isAddr, run, |run|) > 0 {
        LongestCutCuts(isAddr, run, |run|);
        CutsIffCloses(isAddr, run, m);
      }
    }
  }

  lemma {:induction false} FirstSplitLeast(isAddr: IsAddress, run: string, from: nat, n: nat)
    requires 0 < from <= n < |run| - 1 && SplitsAt(isAddr, run, n)
    ensures FirstSplit(isAddr, run, from) <= n
    decreases n - from
  {
    if from < n { FirstSplitLeast(isAddr, run, from + 1, n); }
  }

  /** Behind the longest address that closes, a tail is shown in which nothing closes or is
      glued any more ... */
  lemma TailIsShown(isAddr: IsAddress, run: string, n: nat)
    requires ShortRun(run) && 0 < n < |run| - 1 && ShortRun(run[n + 1..]) && Closes(isAddr, run, n)
    requires run[n] == '.' || (run[n] == ':' && WordByte(run[n - 1]))
    requires forall k :: n < k <= |run| ==> !Closes(isAddr, run, k)
    requires Unfinished(isAddr, run[n + 1..])
    ensures Redacted(isAddr, run) == MASK + run[n..]
  {
    LongestCloseIsMasked(isAddr, run, n);
    SeparatorThenRun(isAddr, WordByte(run[n - 1]), run[n], run[n + 1..]);
    assert run[n..] == [run[n]] + run[n + 1..];
  }

  lemma SeparatorThenRun(isAddr: IsAddress, inWord: bool, c: char, run: string)
    requires Stop(c) && (c == '.' || inWord) && ShortRun(run) && Unfinished(isAddr, run)
    ensures Scan(isAddr, inWord, [c] + run) == [c] + run
  {
    SkippedIsShown(isAddr, inWord, c, run);
    RunShownIff(isAddr, run);
  }

  /** ... so of two glued addresses the second can come through: `x` closes inside the first,
      `x.u`, and is masked in its stead, and what is left starts no address. */
  lemma GluedAddressIsShown(isAddr: IsAddress, x: string, u: string, b: string)
    requires x != "" && u != "" && u[0] != '.' && isAddr(x) && isAddr(x + ("." + u)) && isAddr(b) && b != ""
        && !Stop(b[0])
    requires ShortRun(x + (['.'] + (u + (":" + b)))) && !StartsAddress(isAddr, u + (":" + b))
    requires forall n :: |x| < n <= |x| + |u| + |b| + 2 && isAddr((x + (['.'] + (u + (":" + b))))[..n]) ==>
        n == |x| + 1 + |u|
    ensures Redacted(isAddr, x + (['.'] + (u + (":" + b)))) == MASK + (['.'] + (u + (":" + b)))
  {
    var tail := u + (":" + b);
    var run := x + (['.'] + tail);
    assert run[..|x|] == x && run[|x|] == '.' && run[|x| + 1..] == tail && tail[0] == u[0];
    forall n | |x| < n <= |run| ensures !Closes(isAddr, run, n) {
      if n == |x| + 1 + |u| { NotClosed(isAddr, run, n, x + ("." + u), b); }
    }
    forall n | 0 < n <= |tail| ensures !isAddr(tail[..n]) { assert tail == tail[..n] + tail[n..]; }
    assert forall c <- tail :: c in run;
    TailIsShown(isAddr, run, |x|);
    assert run[|x|..] == ['.'] + tail;
  }

  lemma NotClosed(isAddr: IsAddress, run: string, n: nat, a: string, b: string)
    requires run == a + (":" + b) && n == |a| > 0 && isAddr(b) && b != "" && !Stop(b[0])
    ensures !Closes(isAddr, run, n)
  {
    assert run[n..] == ":" + b && run[n + 1..] == b && b == b + "";
    assert (":" + b)[1] in ":" + b;
  }

  /** Such addresses by section 2.2 of RFC 4291, in `1::2.3.4.5:1::2`. */
  lemma GluedExample(isAddr: IsAddress)
    requires forall s: string :: isAddr(s) <==> s in ["1::", "1::2", "1::2.3.4.5"]
    ensures Redacted(isAddr, "1::2" + (['.'] + ("3.4.5" + (":" + "1::2"))))
        == MASK + (['.'] + ("3.4.5" + (":" + "1::2")))
  {
    assert "1::2" + ("." + "3.4.5") == "1::2.3.4.5";
    StartsOtherwise(isAddr, '1', "3.4.5" + (":" + "1::2"));
    GluedAddressIsShown(isAddr, "1::2", "3.4.5", "1::2");
  }

  lemma StartsOtherwise(isAddr: IsAddress, c: char, s: string)
    requires s != "" && s[0] != c && forall a: string :: isAddr(a) ==> a != "" && a[0] == c
    ensures !StartsAddress(isAddr, s)
  {
    forall x: string, y: string | s == x + y && x != "" ensures !isAddr(x) { assert x[0] == s[0]; }
  }

  // ---- runs before a word, over-long runs, zones ---------------------------------------------

  lemma {:induction false} ColonsCount(s: string)
    ensures Colons(s) == multiset(s)[':']
  {
    if s != "" {
      assert s == [s[0]] + s[1..];
      ColonsCount(s[1..]);
    }
  }

  /** A run of more than 128 bytes is not searched: it is masked when it has two colons. */
  lemma OverlongRun(isAddr: IsAddress, run: string)
    requires Run(run) && |run| > 128
    ensures Redacted(isAddr, run) == if multiset(run)[':'] >= 2 then MASK else run
  {
    ColonsCount(run);
    WholeRun(run);
    assert run[0] in run && run[..|run|] == run;
    OneSegment(isAddr, run, if Colons(run) >= 2 then Masked(run) else Kept(run));
  }

  lemma OneSegment(isAddr: IsAddress, s: string, g: Segment)
    requires s != "" && FirstSegment(isAddr, false, s) == g && g.text == s
    ensures Redacted(isAddr, s) == Shown(g)
  {
    ScanFirst(isAddr, false, s, g, "");
  }

  /** A letter right after an address shows it when it has just two colons, as in a word. */
  lemma AddressThenWord(isAddr: IsAddress, a: string, c: char, s: string)
    requires ShortRun(a) && isAddr(a) && Letter(c) && !Hex(c)
    ensures Redacted(isAddr, a + ([c] + s))
         == (if multiset(a)[':'] == 2 then a else MASK) + Scan(isAddr, WordByte(a[|a| - 1]), [c] + s)
  {
    var w := a + ([c] + s);
    ColonsCount(a);
    RunBefore(a, [c] + s);
    WholeIsFound(isAddr, a);
    assert w[..|a|] == a && w[|a|..] == [c] + s && a[0] in a;
    var g := if Colons(a) == 2 then Kept(a) else Masked(a);
    ScanFirst(isAddr, false, w, g, [c] + s);
  }

  lemma WholeIsFound(isAddr: IsAddress, a: string)
    requires ShortRun(a) && isAddr(a)
    ensures MatchEnd(isAddr, a) == |a|
  {
    assert a[..|a|] == a && CutsAt(isAddr, a, |a|);
  }

  lemma {:induction false} RunBefore(a: string, s: string)
    requires (forall c <- a :: RunChar(c)) && (s == "" || !RunChar(s[0]))
    ensures RunLen(a + s) == |a|
  {
    if a == "" {
      assert a + s == s;
    } else {
      assert a[0] in a && (a + s)[1..] == a[1..] + s && forall c <- a[1..] :: c in a;
      RunBefore(a[1..], s);
    }
  }

  predicate ZoneMark(c: char) { c == '-' || c == '_' }

  /** Word bytes, with no address right after a dash or an underscore. */
  ghost predicate Zone(isAddr: IsAddress, z: string)
  {
    && (forall c <- z :: ZoneChar(c))
    && (forall x: string, m: char, a: string, y: string :: z == x + [m] + a + y && ZoneMark(m) && a != "" ==>
        !isAddr(a))
  }

  /** The zone goes on to the first byte that is no word byte, or to a mark with an address. */
  lemma {:induction false} ZoneThrough(isAddr: IsAddress, z: string, s: string)
    requires Zone(isAddr, z) && ZoneLen(isAddr, s) == 0 && (s == "" || !RunChar(s[0]))
    ensures ZoneLen(isAddr, z + s) == |z|
  {
    if z == "" {
      assert z + s == s;
    } else {
      var more := z[1..];
      assert z[0] in z && (z + s)[1..] == more + s && z == [z[0]] + more;
      ZoneTail(isAddr, z[0], more);
      ZoneThrough(isAddr, more, s);
      if ZoneMark(z[0]) { NoAddressAt(isAddr, z[0], more, s); }
    }
  }

  /** A mark ends the zone exactly when the run after it is an address of at most 128 bytes. */
  lemma MarkEndsZoneIff(isAddr: IsAddress, m: char, run: string, s: string)
    requires ZoneMark(m) && run != "" && Hex(run[0]) && (forall c <- run :: RunChar(c)) && (s == "" || !RunChar(s[0]))
    ensures ZoneLen(isAddr, [m] + (run + s)) == 0 <==> |run| <= 128 && isAddr(run)
  {
    var w := [m] + (run + s);
    RunBefore(run, s);
    assert w[1..] == run + s && (run + s)[..|run|] == run;
  }

  lemma ZoneTail(isAddr: IsAddress, c: char, more: string)
    requires Zone(isAddr, [c] + more)
    ensures Zone(isAddr, more)
  {
    assert forall d <- more :: d in [c] + more;
    forall x: string, m: char, a: string, y: string | more == x + [m] + a + y && ZoneMark(m) && a != ""
        ensures !isAddr(a) {
      assert [c] + more == ([c] + x) + [m] + a + y;
    }
  }

  lemma {:induction false} RunLenWithin(a: string, s: string)
    requires s == "" || !RunChar(s[0])
    ensures RunLen(a + s) == RunLen(a)
  {
    if a == "" {
      assert a + s == s;
    } else {
      assert (a + s)[1..] == a[1..] + s;
      RunLenWithin(a[1..], s);
    }
  }

  lemma NoAddressAt(isAddr: IsAddress, m: char, more: string, s: string)
    requires Zone(isAddr, [m] + more) && ZoneMark(m) && (s == "" || !RunChar(s[0]))
    ensures more + s != "" && Hex((more + s)[0]) ==> !AddressAt(isAddr, more + s)
  {
    RunLenWithin(more, s);
    var a := more[..RunLen(more)];
    assert (more + s)[..RunLen(more)] == a;
    if a != "" { assert [m] + more == "" + [m] + a + more[RunLen(more)..]; }
    if more == "" { assert more + s == s; } else { assert (more + s)[0] == more[0]; }
  }

  /** The zone goes with its address ... */
  lemma ZoneGoesWithAddress(isAddr: IsAddress, a: string, z: string, s: string)
    requires ShortRun(a) && isAddr(a) && z != "" && Zone(isAddr, z)
    requires ZoneLen(isAddr, s) == 0 && (s == "" || !RunChar(s[0]))
    ensures Redacted(isAddr, a + (['%'] + (z + s))) == MASK + Scan(isAddr, WordByte(z[|z| - 1]), s)
  {
    ExtentOfZone(isAddr, z, s);
    MaskedFirst(isAddr, a, ['%'] + (z + s), 1 + |z|);
    BehindZone(a, z, s);
  }

  lemma ExtentOfZone(isAddr: IsAddress, z: string, s: string)
    requires z != "" && Zone(isAddr, z) && ZoneLen(isAddr, s) == 0 && (s == "" || !RunChar(s[0]))
    ensures ZoneExtent(isAddr, ['%'] + (z + s)) == 1 + |z|
  {
    ZoneThrough(isAddr, z, s);
    assert (['%'] + (z + s))[1..] == z + s;
  }

  lemma BehindZone(a: string, z: string, s: string)
    requires z != ""
    ensures var w := a + (['%'] + (z + s)); w[|a| + (1 + |z|)..] == s && w[|a| + (1 + |z|) - 1] == z[|z| - 1]
  {
    var w := a + (['%'] + (z + s));
    assert w == (a + ['%'] + z) + s;
  }

  lemma MaskedFirst(isAddr: IsAddress, a: string, rest: string, k: nat)
    requires ShortRun(a) && isAddr(a) && rest != "" && rest[0] == '%' && ZoneExtent(isAddr, rest) == k
    ensures var w := a + rest;
      Redacted(isAddr, w) == MASK + Scan(isAddr, WordByte(w[|a| + k - 1]), w[|a| + k..])
  {
    var w := a + rest;
    RunBefore(a, rest);
    WholeIsFound(isAddr, a);
    assert w[..|a|] == a && w[|a|..] == rest && a[0] in a;
    ScanFirst(isAddr, false, w, Masked(w[..|a| + k]), w[|a| + k..]);
  }

  /** ... up to a mark with a further address, which is masked for itself ... */
  lemma AddressAfterZone(isAddr: IsAddress, a: string, z: string, m: char, b: string)
    requires ShortRun(a) && isAddr(a) && z != "" && Zone(isAddr, z) && ZoneMark(m)
    requires ShortRun(b) && isAddr(b) && Hex(b[0])
    ensures Redacted(isAddr, a + (['%'] + (z + ([m] + b)))) == MASK + ([m] + MASK)
  {
    assert ([m] + b)[1..] == b && b[..|b|] == b;
    WholeRun(b);
    assert AddressAt(isAddr, b) && ZoneLen(isAddr, [m] + b) == 0;
    ZoneGoesWithAddress(isAddr, a, z, [m] + b);
    SeparatorThenAddress(isAddr, WordByte(z[|z| - 1]), m, b);
  }

  /** ... and a percent sign without a zone is shown. */
  lemma LonePercentIsShown(isAddr: IsAddress, a: string, s: string)
    requires ShortRun(a) && isAddr(a) && (s == "" || !ZoneChar(s[0]))
    ensures Redacted(isAddr, a + (['%'] + s)) == MASK + (['%'] + Redacted(isAddr, s))
  {
    var rest := ['%'] + s;
    assert rest[1..] == s;
    MaskedFirst(isAddr, a, rest, 0);
    var w := a + rest;
    assert w[|a| - 1] == a[|a| - 1] && w[|a|..] == rest;
    SkippedIsShown(isAddr, WordByte(a[|a| - 1]), '%', s);
  }
}
