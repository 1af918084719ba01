/** The hand-written IPv6 redaction scanner. A string is a sequence of bytes, one per
    character; which texts are IPv6 addresses (section 2.2 of RFC 4291, other than
    the bare "::") is a parameter. */
module Redact {

  const MASK: string := "[redacted]"

  type IsAddress = string -> bool

  predicate Hex(c: char) { '0' <= c <= '9' || 'a' <= c <= 'f' || 'A' <= c <= 'F' }

  predicate Letter(c: char) { 'a' <= c <= 'z' || 'A' <= c <= 'Z' }

  predicate RunChar(c: char) { Hex(c) || c == ':' || c == '.' }

  predicate ZoneChar(c: char) { c == '-' || c == '_' || Hex(c) || Letter(c) }

  predicate WordByte(c: char) { Hex(c) || Letter(c) }

  /** The classes by their bytes. */
  lemma CharacterClasses(c: char)
    ensures Hex(c) <==> c in "0123456789abcdefABCDEF"
    ensures Letter(c) <==> 65 <= c as int <= 90 || 97 <= c as int <= 122
    ensures RunChar(c) <==> c in "0123456789abcdefABCDEF:."
    ensures ZoneChar(c) <==> c in "0123456789-_" || 65 <= c as int <= 90 || 97 <= c as int <= 122
    ensures WordByte(c) <==> c in "0123456789" || 65 <= c as int <= 90 || 97 <= c as int <= 122
  {
  }

  predicate EndsInWord(text: string) { text != "" && WordByte(text[|text| - 1]) }

  /** No run starts here: a byte that cannot start an address, or one inside a word. */
  predicate Skipped(inWord: bool, c: char) { (!Hex(c) && c != ':') || inWord }

  function RunLen(s: string): (n: nat)
    ensures n <= |s|
  {
    if s != "" && RunChar(s[0]) then 1 + RunLen(s[1..]) else 0
  }

  function Colons(s: string): nat
  {
    if s == "" then 0 else (if s[0] == ':' then 1 else 0) + Colons(s[1..])
  }

  /** Nothing but colons and dots. */
  predicate Punctuation(s: string) { forall c <- s :: c == ':' || c == '.' }

  predicate HasPrefix(isAddr: IsAddress, s: string) { exists n :: 0 < n <= |s| && isAddr(s[..n]) }

  /** A prefix that may be cut here: the whole part, or followed by punctuation only, or by
      one separator that starts no further address. */
  predicate CutsAt(isAddr: IsAddress, part: string, n: nat)
    requires 0 < n <= |part|
  {
    && isAddr(part[..n])
    && (n == |part| || Punctuation(part[n..])
        || ((part[n] == '.' || part[n] == ':') && n + 1 < |part| && part[n + 1] != part[n]
            && !HasPrefix(isAddr, part[n + 1..])))
  }

  /** The longest such prefix of at most `n` bytes; 0 if there is none. */
  function LongestCut(isAddr: IsAddress, part: string, n: nat): (m: nat)
    requires n <= |part|
    ensures m <= n
  {
    if n == 0 then 0 else if CutsAt(isAddr, part, n) then n else LongestCut(isAddr, part, n - 1)
  }

  /** Two addresses glued by one separator. */
  predicate SplitsAt(isAddr: IsAddress, part: string, k: nat)
    requires k < |part|
  {
    (part[k] == ':' || part[k] == '.') && isAddr(part[..k]) && HasPrefix(isAddr, part[k + 1..])
  }

  /** The first such split from `k` on; 0 if there is none. */
  function FirstSplit(isAddr: IsAddress, part: string, k: nat): (m: nat)
    ensures m < |part| || m == 0
    decreases |part| - k
  {
    if k + 1 >= |part| then 0
    else if k > 0 && SplitsAt(isAddr, part, k) then k
    else FirstSplit(isAddr, part, k + 1)
  }

  /** How much of a run is an address, before what follows it is looked at. */
  function MatchEnd(isAddr: IsAddress, part: string): (m: nat)
    ensures m <= |part|
  {
    if |part| > 128 then 0
    else
      var cut := LongestCut(isAddr, part, |part|);
      if cut > 0 then cut else FirstSplit(isAddr, part, 1)
  }

  /** A short match that a letter follows is a word, not an address. */
  predicate Vetoed(s: string, m: nat)
    requires m <= |s|
  {
    0 < m < |s| && Colons(s[..m]) == 2 && Letter(s[m])
  }

  /** Whether an address starts right after a zone separator. */
  predicate AddressAt(isAddr: IsAddress, s: string)
  {
    RunLen(s) <= 128 && isAddr(s[..RunLen(s)])
  }

  /** The zone after a `%`: word bytes, stopping before a separator that starts an address. */
  function ZoneLen(isAddr: IsAddress, s: string): (n: nat)
    ensures n <= |s|
  {
    if s == "" || !ZoneChar(s[0]) then 0
    else if (s[0] == '-' || s[0] == '_') && |s| > 1 && Hex(s[1]) && AddressAt(isAddr, s[1..]) then 0
    else 1 + ZoneLen(isAddr, s[1..])
  }

  /** The bytes a zone adds to a match that ends where `s` starts. */
  function ZoneExtent(isAddr: IsAddress, s: string): (n: nat)
    ensures n <= |s|
  {
    if s != "" && s[0] == '%' && ZoneLen(isAddr, s[1..]) > 0 then 1 + ZoneLen(isAddr, s[1..]) else 0
  }

  /** One step from the start of `s`: what it consumes and whether that is masked. */
  datatype Segment = Kept(text: string) | Masked(text: string)

  function FirstSegment(isAddr: IsAddress, inWord: bool, s: string): (g: Segment)
    requires s != ""
    ensures 0 < |g.text| <= |s| && g.text == s[..|g.text|]
  {
    if Skipped(inWord, s[0]) then Kept(s[..1])
    else
      var n := RunLen(s);
      if n > 128 && Colons(s[..n]) >= 2 then Masked(s[..n])
      else
        var m := MatchEnd(isAddr, s[..n]);
        if m == 0 || Vetoed(s, m) then Kept(s[..n])
        else Masked(s[..m + ZoneExtent(isAddr, s[m..])])
  }

  function Shown(g: Segment): string { if g.Masked? then MASK else g.text }

  /** The output for what is left, inside a word or not. */
  function Scan(isAddr: IsAddress, inWord: bool, s: string): string
    decreases |s|
  {
    if s == "" then ""
    else
      var g := FirstSegment(isAddr, inWord, s);
      Shown(g) + Scan(isAddr, EndsInWord(g.text), s[|g.text|..])
  }

  function Redacted(isAddr: IsAddress, value: string): string { Scan(isAddr, false, value) }

  // ---- the output is the input with segments masked ---------------------------------------

  /** What may be masked: an address, with its zone if it has one, or an over-long run
      that could hide one. */
  ghost predicate Maskable(isAddr: IsAddress, text: string)
  {
    || (exists m :: 0 < m <= |text| && m <= 128 && isAddr(text[..m]) && RunLen(text[..m]) == m
          && (m == |text| || (text[m] == '%' && m + 1 < |text| && forall i :: m < i < |text| ==> ZoneChar(text[i]))))
    || (|text| > 128 && RunLen(text) == |text| && Colons(text) >= 2)
  }

  lemma {:induction false} RunPrefix(s: string, n: nat)
    requires n <= RunLen(s)
    ensures RunLen(s[..n]) == n
  {
    if n > 0 {
      RunPrefix(s[1..], n - 1);
      assert s[..n][1..] == s[1..][..n - 1];
    }
  }

  lemma {:induction false} ZoneLenChars(isAddr: IsAddress, s: string, i: nat)
    requires i < ZoneLen(isAddr, s)
    ensures ZoneChar(s[i])
  {
    if i > 0 { ZoneLenChars(isAddr, s[1..], i - 1); }
  }

  lemma {:induction false} LongestCutCuts(isAddr: IsAddress, part: string, n: nat)
    requires n <= |part| && LongestCut(isAddr, part, n) > 0
    ensures CutsAt(isAddr, part, LongestCut(isAddr, part, n))
  {
    if !CutsAt(isAddr, part, n) { LongestCutCuts(isAddr, part, n - 1); }
  }

  lemma {:induction false} FirstSplitSplits(isAddr: IsAddress, part: string, k: nat)
    requires FirstSplit(isAddr, part, k) > 0
    ensures k <= FirstSplit(isAddr, part, k) < |part| - 1 && SplitsAt(isAddr, part, FirstSplit(isAddr, part, k))
    decreases |part| - k
  {
    if !(k > 0 && SplitsAt(isAddr, part, k)) { FirstSplitSplits(isAddr, part, k + 1); }
  }

  /** What is found in a run is an address that ends there for one of the two reasons. */
  lemma MatchCutsOrSplits(isAddr: IsAddress, part: string, m: nat)
    requires m == MatchEnd(isAddr, part) && m > 0
    ensures isAddr(part[..m]) && (CutsAt(isAddr, part, m) || (m < |part| - 1 && SplitsAt(isAddr, part, m)))
  {
    if LongestCut(isAddr, part, |part|) > 0 {
      LongestCutCuts(isAddr, part, |part|);
    } else {
      FirstSplitSplits(isAddr, part, 1);
    }
  }

  lemma FirstMaskable(isAddr: IsAddress, inWord: bool, s: string)
    requires s != ""
    ensures var g := FirstSegment(isAddr, inWord, s); g.Masked? ==> Maskable(isAddr, g.text)
  {
    var g := FirstSegment(isAddr, inWord, s);
    var n := RunLen(s);
    RunPrefix(s, n);
    if g.Masked? && !(n > 128 && Colons(s[..n]) >= 2) {
      var m := MatchEnd(isAddr, s[..n]);
      MatchCutsOrSplits(isAddr, s[..n], m);
      var z := ZoneExtent(isAddr, s[m..]);
      RunPrefix(s, m);
      assert g.text[..m] == s[..m] == s[..n][..m];
      if z > 0 {
        assert g.text[m] == s[m..][0];
        forall i | m < i < |g.text| ensures ZoneChar(g.text[i]) {
          ZoneLenChars(isAddr, s[m..][1..], i - m - 1);
          assert g.text[i] == s[m..][1..][i - m - 1];
        }
      }
    }
  }

  /** The segments of the scan, in order. */
  function Segments(isAddr: IsAddress, inWord: bool, s: string): seq<Segment>
    decreases |s|
  {
    if s == "" then []
    else
      var g := FirstSegment(isAddr, inWord, s);
      [g] + Segments(isAddr, EndsInWord(g.text), s[|g.text|..])
  }

  function Texts(gs: seq<Segment>): string
  {
    if gs == [] then "" else gs[0].text + Texts(gs[1..])
  }

  function Render(gs: seq<Segment>): string
  {
    if gs == [] then "" else Shown(gs[0]) + Render(gs[1..])
  }

  /** The output shows the segments. */
  lemma {:induction false} SegmentsRender(isAddr: IsAddress, inWord: bool, s: string)
    ensures Render(Segments(isAddr, inWord, s)) == Scan(isAddr, inWord, s)
    decreases |s|
  {
    if s != "" {
      var g := FirstSegment(isAddr, inWord, s);
      SegmentsRender(isAddr, EndsInWord(g.text), s[|g.text|..]);
    }
  }

  lemma {:induction false} SegmentsCover(isAddr: IsAddress, inWord: bool, s: string)
    ensures Texts(Segments(isAddr, inWord, s)) == s
    decreases |s|
  {
    if s != "" {
      var g := FirstSegment(isAddr, inWord, s);
      SegmentsCover(isAddr, EndsInWord(g.text), s[|g.text|..]);
    }
  }

  lemma {:induction false} SegmentsMaskable(isAddr: IsAddress, inWord: bool, s: string)
    ensures forall g <- Segments(isAddr, inWord, s) :: g.text != "" && (g.Masked? ==> Maskable(isAddr, g.text))
    decreases |s|
  {
    if s != "" {
      var g := FirstSegment(isAddr, inWord, s);
      FirstMaskable(isAddr, inWord, s);
      SegmentsMaskable(isAddr, EndsInWord(g.text), s[|g.text|..]);
    }
  }

  /** They cover the input once, in order; masked ones are maskable. */
  lemma SegmentsPartition(isAddr: IsAddress, inWord: bool, s: string)
    ensures Texts(Segments(isAddr, inWord, s)) == s && Render(Segments(isAddr, inWord, s)) == Scan(isAddr, inWord, s)
    ensures forall g <- Segments(isAddr, inWord, s) :: g.text != "" && (g.Masked? ==> Maskable(isAddr, g.text))
  {
    SegmentsCover(isAddr, inWord, s);
    SegmentsMaskable(isAddr, inWord, s);
    SegmentsRender(isAddr, inWord, s);
  }

  ghost predicate Within(text: string, s: string)
  {
    exists a: string, b: string :: s == a + (text + b)
  }

  lemma WithinMore(first: string, text: string, s: string)
    requires Within(text, s)
    ensures Within(text, first + s)
  {
    var a: string, b: string :| s == a + (text + b);
    Associate(first, a, text + b);
  }

  lemma {:induction false} TextsWithin(gs: seq<Segment>, g: Segment)
    requires g in gs
    ensures Within(g.text, Texts(gs))
  {
    if gs[0] == g {
      assert Texts(gs) == [] + (g.text + Texts(gs[1..]));
    } else {
      TextsWithin(gs[1..], g);
      WithinMore(gs[0].text, g.text, Texts(gs[1..]));
    }
  }

  lemma {:induction false} NothingMasked(gs: seq<Segment>)
    requires forall g <- gs :: g.Kept?
    ensures Render(gs) == Texts(gs)
  {
    if gs != [] {
      assert gs[0] in gs;
      NothingMasked(gs[1..]);
    }
  }

  /** An input that holds no address and no over-long run comes out unchanged. */
  lemma UnchangedWithoutAddress(isAddr: IsAddress, value: string)
    requires forall text: string :: Within(text, value) ==> !Maskable(isAddr, text)
    ensures Redacted(isAddr, value) == value
  {
    var gs := Segments(isAddr, false, value);
    SegmentsPartition(isAddr, false, value);
    forall g | g in gs ensures g.Kept? { TextsWithin(gs, g); }
    NothingMasked(gs);
  }

  // ---- the scan is local -------------------------------------------------------------------

  /** A byte no run, word or zone goes across. */
  predicate Separator(c: char) { !RunChar(c) && !ZoneChar(c) && c != '%' }

  lemma {:induction false} RunLenLocal(a: string, sep: char, b: string)
    requires Separator(sep)
    ensures RunLen(a + [sep] + b) == RunLen(a)
  {
    if a != "" {
      RunLenLocal(a[1..], sep, b);
      assert (a + [sep] + b)[1..] == a[1..] + [sep] + b;
    }
  }

  lemma {:induction false} ZoneLenLocal(isAddr: IsAddress, a: string, sep: char, b: string)
    requires Separator(sep)
    ensures ZoneLen(isAddr, a + [sep] + b) == ZoneLen(isAddr, a)
  {
    if a != "" {
      var w := a + [sep] + b;
      ZoneLenLocal(isAddr, a[1..], sep, b);
      RunLenLocal(a[1..], sep, b);
      assert w[1..] == a[1..] + [sep] + b;
      assert w[1..][..RunLen(a[1..])] == a[1..][..RunLen(a[1..])];
    }
  }

  lemma ZoneExtentLocal(isAddr: IsAddress, a: string, sep: char, b: string)
    requires Separator(sep)
    ensures ZoneExtent(isAddr, a + [sep] + b) == ZoneExtent(isAddr, a)
  {
    if a != "" {
      assert (a + [sep] + b)[1..] == a[1..] + [sep] + b;
      ZoneLenLocal(isAddr, a[1..], sep, b);
    }
  }

  lemma FirstSegmentLocal(isAddr: IsAddress, inWord: bool, a: string, sep: char, b: string)
    requires Separator(sep) && a != ""
    ensures FirstSegment(isAddr, inWord, a + [sep] + b) == FirstSegment(isAddr, inWord, a)
  {
    var w := a + [sep] + b;
    RunLenLocal(a, sep, b);
    var n := RunLen(a);
    assert w[..n] == a[..n] && w[..1] == a[..1];
    var m := MatchEnd(isAddr, a[..n]);
    assert w[m..] == a[m..] + [sep] + b && w[..m] == a[..m];
    ZoneExtentLocal(isAddr, a[m..], sep, b);
    assert w[..m + ZoneExtent(isAddr, a[m..])] == a[..m + ZoneExtent(isAddr, a[m..])];
  }

  lemma {:induction false} ScanLocal(isAddr: IsAddress, inWord: bool, a: string, sep: char, b: string)
    requires Separator(sep)
    ensures Scan(isAddr, inWord, a + [sep] + b) == Scan(isAddr, inWord, a) + ([sep] + Scan(isAddr, false, b))
    decreases |a|
  {
    if a == "" {
      assert a + [sep] + b == [sep] + b && ([sep] + b)[..1] == [sep] && ([sep] + b)[1..] == b;
    } else {
      FirstSegmentLocal(isAddr, inWord, a, sep, b);
      var g := FirstSegment(isAddr, inWord, a);
      TailLocal(a, sep, b, |g.text|);
      ScanLocal(isAddr, EndsInWord(g.text), a[|g.text|..], sep, b);
      Associate(Shown(g), Scan(isAddr, EndsInWord(g.text), a[|g.text|..]), [sep] + Scan(isAddr, false, b));
    }
  }

  lemma TailLocal(a: string, sep: char, b: string, k: nat)
    requires k <= |a|
    ensures (a + [sep] + b)[k..] == a[k..] + [sep] + b
  {
  }

  lemma Associate(a: string, b: string, c: string)
    ensures a + (b + c) == (a + b) + c
  {
  }

  /** Redaction works field by field: on either side of a separator it does what it would
      do to that side alone. */
  lemma RedactsFieldwise(isAddr: IsAddress, a: string, sep: char, b: string)
    requires Separator(sep)
    ensures Redacted(isAddr, a + [sep] + b) == Redacted(isAddr, a) + [sep] + Redacted(isAddr, b)
  {
    ScanLocal(isAddr, false, a, sep, b);
    Associate(Redacted(isAddr, a), [sep], Redacted(isAddr, b));
  }

  /** A field that is an address of at most 128 bytes is masked whole. */
  lemma AddressIsMasked(isAddr: IsAddress, field: string)
    requires isAddr(field) && 0 < |field| <= 128 && RunLen(field) == |field| && field[0] != '.'
    ensures Redacted(isAddr, field) == MASK
  {
    var n := |field|;
    assert field[..n] == field && field[n..] == "";
    assert CutsAt(isAddr, field, n) && LongestCut(isAddr, field, n) == n;
    assert FirstSegment(isAddr, false, field) == Masked(field);
    ScanFirst(isAddr, false, field, Masked(field), "");
  }

  /** So an address between separators never comes through. */
  lemma DelimitedAddressIsMasked(isAddr: IsAddress, a: string, x: char, field: string, y: char, b: string)
    requires Separator(x) && Separator(y)
    requires isAddr(field) && 0 < |field| <= 128 && RunLen(field) == |field| && field[0] != '.'
    ensures Redacted(isAddr, a + [x] + (field + [y] + b))
        == Redacted(isAddr, a) + [x] + (MASK + [y] + Redacted(isAddr, b))
  {
    RedactsFieldwise(isAddr, a, x, field + [y] + b);
    RedactsFieldwise(isAddr, field, y, b);
    AddressIsMasked(isAddr, field);
  }

  // ---- the scanner -------------------------------------------------------------------------

  /** The output starts with what the first segment shows. */
  lemma ScanFirst(isAddr: IsAddress, inWord: bool, s: string, g: Segment, rest: string)
    requires s != "" && g == FirstSegment(isAddr, inWord, s) && rest == s[|g.text|..]
    ensures Scan(isAddr, inWord, s) == Shown(g) + Scan(isAddr, EndsInWord(g.text), rest)
  {
  }

  predicate InWord(value: string, position: nat)
    requires position <= |value|
  {
    position > 0 && WordByte(value[position - 1])
  }

  /** What is still to come at a position. */
  ghost predicate OnTrack(isAddr: IsAddress, value: string, position: nat, output: string, total: string)
    requires position <= |value|
  {
    output + Scan(isAddr, InWord(value, position), value[position..]) == total
  }

  lemma NextTurn(isAddr: IsAddress, value: string, position: nat, output: string, total: string, shown: string,
                 next: nat, out: string)
    requires position < next <= |value| && OnTrack(isAddr, value, position, output, total) && out == output + shown
    requires var s, n := value[position..], next - position;
      Scan(isAddr, InWord(value, position), s) == shown + Scan(isAddr, EndsInWord(s[..n]), s[n..])
    ensures OnTrack(isAddr, value, next, out, total)
  {
    var s, n := value[position..], next - position;
    assert s[n..] == value[next..] && EndsInWord(s[..n]) == InWord(value, next);
    Associate(output, shown, Scan(isAddr, InWord(value, next), value[next..]));
  }

  lemma OnTrackEnds(isAddr: IsAddress, value: string, output: string, total: string)
    ensures OnTrack(isAddr, value, 0, "", Redacted(isAddr, value))
    ensures OnTrack(isAddr, value, |value|, output, total) ==> output == total
  {
    assert value[0..] == value && value[|value|..] == "";
  }

  /** redactIPv6. */
  method RedactIPv6(isAddr: IsAddress, value: string) returns (output: string)
    ensures output == Redacted(isAddr, value)
  {
    ghost var total := Redacted(isAddr, value);
    var position := 0;
    output := "";
    OnTrackEnds(isAddr, value, "", total);
    while position < |value|
      invariant 0 <= position <= |value| && OnTrack(isAddr, value, position, output, total)
    {
      position, output := Turn(isAddr, value, position, output, total);
    }
    OnTrackEnds(isAddr, value, output, total);
  }

  method Turn(isAddr: IsAddress, value: string, position: nat, output: string, ghost total: string)
    returns (next: nat, out: string)
    requires position < |value| && OnTrack(isAddr, value, position, output, total)
    ensures position < next <= |value| && OnTrack(isAddr, value, next, out, total)
  {
    var n, shown := Step(isAddr, InWord(value, position), value[position..]);
    next, out := position + n, output + shown;
    NextTurn(isAddr, value, position, output, total, shown, next, out);
  }

  /** One turn of the scan over what is left. */
  method Step(isAddr: IsAddress, inWord: bool, s: string) returns (n: nat, shown: string)
    requires s != ""
    ensures 0 < n <= |s| && Scan(isAddr, inWord, s) == shown + Scan(isAddr, EndsInWord(s[..n]), s[n..])
  {
    n, shown := ScanStep(isAddr, inWord, s);
    ScanFirst(isAddr, inWord, s, FirstSegment(isAddr, inWord, s), s[n..]);
  }

  /** How far a turn goes, and what it writes. */
  method ScanStep(isAddr: IsAddress, inWord: bool, s: string) returns (n: nat, shown: string)
    requires s != ""
    ensures n == |FirstSegment(isAddr, inWord, s).text| && shown == Shown(FirstSegment(isAddr, inWord, s))
  {
    if Skipped(inWord, s[0]) {
      return 1, s[..1];
    }
    var end := RunEnd(s);
    if end > 128 && Colons(s[..end]) >= 2 {
      return end, MASK;
    }
    var matchEnd := FindMatch(isAddr, s[..end]);
    assert s[..end][..matchEnd] == s[..matchEnd];
    if matchEnd > 0 && matchEnd < |s| && Colons(s[..end][..matchEnd]) == 2 && Letter(s[matchEnd]) {
      matchEnd := 0;
    }
    if matchEnd == 0 {
      return end, s[..end];
    }
    var zone := FindZoneEnd(isAddr, s[matchEnd..]);
    n, shown := matchEnd + zone, MASK;
  }

  method RunEnd(s: string) returns (end: nat)
    ensures end == RunLen(s)
  {
    end := 0;
    while end < |s| && RunChar(s[end])
      invariant 0 <= end <= |s|
      invariant end + RunLen(s[end..]) == RunLen(s)
    {
      assert s[end..][1..] == s[end + 1..];
      end := end + 1;
    }
  }

  /** The two searches for the end of the address: cuts from the longest down, then splits from the first up. */
  method FindMatch(isAddr: IsAddress, part: string) returns (matchEnd: nat)
    ensures matchEnd == MatchEnd(isAddr, part)
  {
    if |part| > 128 {
      return 0;
    }
    var prefixEnd := |part|;
    while prefixEnd > 0
      invariant 0 <= prefixEnd <= |part|
      invariant LongestCut(isAddr, part, prefixEnd) == LongestCut(isAddr, part, |part|)
    {
      if CutsAt(isAddr, part, prefixEnd) {
        return prefixEnd;
      }
      prefixEnd := prefixEnd - 1;
    }
    var split := 1;
    while split < |part| - 1
      invariant 1 <= split
      invariant FirstSplit(isAddr, part, split) == FirstSplit(isAddr, part, 1)
    {
      if SplitsAt(isAddr, part, split) {
        return split;
      }
      split := split + 1;
    }
    matchEnd := 0;
  }

  /** How far a zone goes on from the end of a match; a lone `%` is not taken in. */
  method FindZoneEnd(isAddr: IsAddress, s: string) returns (zoneEnd: nat)
    ensures zoneEnd == ZoneExtent(isAddr, s)
  {
    zoneEnd := 0;
    if s != "" && s[0] == '%' {
      zoneEnd := 1;
      while zoneEnd < |s|
        invariant 0 < zoneEnd <= |s|
        invariant zoneEnd + ZoneLen(isAddr, s[zoneEnd..]) == 1 + ZoneLen(isAddr, s[1..])
      {
        var c := s[zoneEnd];
        assert s[zoneEnd..][1..] == s[zoneEnd + 1..];
        if (c == '-' || c == '_') && zoneEnd + 1 < |s| && Hex(s[zoneEnd + 1]) && AddressAt(isAddr, s[zoneEnd + 1..]) {
          break;
        }
        if !ZoneChar(c) {
          break;
        }
        zoneEnd := zoneEnd + 1;
      }
      if zoneEnd == 1 {
        zoneEnd := 0;
      }
    }
  }
}
