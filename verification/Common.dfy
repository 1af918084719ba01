/** Shared vocabulary: optional values, finite sums over maps, and the byte-wise
    string order the catalog pages are sorted by. */
module Common {

  datatype Option<+T> = None | Some(value: T)

  // ---- sums and extremes over finite maps ------------------------------------

  /** Some element of a non-empty set. */
  ghost function Pick<T>(s: set<T>): (x: T)
    requires s != {}
    ensures x in s
  {
    var x :| x in s; x
  }

  lemma {:induction false} MinExists(s: set<int>)
    requires s != {}
    ensures exists k :: k in s && forall j :: j in s ==> k <= j
  {
    var x := Pick(s);
    if s != {x} {
      var rest := s - {x};
      assert s == rest + {x};
      MinExists(rest);
      var k :| k in rest && forall j :: j in rest ==> k <= j;
      var best := if x < k then x else k;
      assert best in s && forall j :: j in s ==> best <= j;
    }
  }

  /** The least element of a non-empty set: `ORDER BY instance_index ASC LIMIT 1`. */
  function MinKey(s: set<int>): (k: int)
    requires s != {}
    ensures k in s && forall j :: j in s ==> k <= j
  {
    MinExists(s);
    var k :| k in s && forall j :: j in s ==> k <= j;
    k
  }

  function SumInt(m: map<int, int>): int
  {
    if m.Keys == {} then 0 else var k := MinKey(m.Keys); m[k] + SumInt(m - {k})
  }

  function SumReal(m: map<int, real>): real
  {
    if m.Keys == {} then 0.0 else var k := MinKey(m.Keys); m[k] + SumReal(m - {k})
  }

  function MinValue(m: map<int, int>): (v: int)
    requires m.Keys != {}
    ensures v in m.Values && forall k :: k in m ==> v <= m[k]
    decreases |m|
  {
    var k := MinKey(m.Keys);
    if m.Keys == {k} then m[k]
    else
      var r := MinValue(m - {k});
      assert forall j :: j in m ==> j == k || j in m - {k};
      if m[k] < r then m[k] else r
  }

  function MaxValue(m: map<int, int>): (v: int)
    requires m.Keys != {}
    ensures v in m.Values && forall k :: k in m ==> m[k] <= v
    decreases |m|
  {
    var k := MinKey(m.Keys);
    if m.Keys == {k} then m[k]
    else
      var r := MaxValue(m - {k});
      assert forall j :: j in m ==> j == k || j in m - {k};
      if r < m[k] then m[k] else r
  }

  /** The sum does not depend on the order in which rows are taken. */
  lemma {:induction false} SumIntSplit(m: map<int, int>, k: int)
    requires k in m
    ensures SumInt(m) == m[k] + SumInt(m - {k})
    decreases |m|
  {
    var j := MinKey(m.Keys);
    if j != k {
      SumIntSplit(m - {j}, k);
      SumIntSplit(m - {k}, j);
      assert (m - {j}) - {k} == (m - {k}) - {j};
    }
  }

  lemma SumSingleton(m: map<int, int>, r: map<int, real>, k: int)
    requires m.Keys == {k} && r.Keys == {k}
    ensures SumInt(m) == m[k] && SumReal(r) == r[k]
  {
    assert MinKey(m.Keys) == k;
    assert (m - {k}).Keys == {} && (r - {k}).Keys == {};
    assert SumInt(m - {k}) == 0 && SumReal(r - {k}) == 0.0;
  }

  // ---- strings ---------------------------------------------------------------

  /** Strict lexicographic order on code points: Go's `<` on strings. */
  predicate StrLess(a: string, b: string)
  {
    if b == "" then false
    else if a == "" then true
    else a[0] < b[0] || (a[0] == b[0] && StrLess(a[1..], b[1..]))
  }

  lemma StrLessTotal(a: string, b: string)
    ensures a == b || StrLess(a, b) || StrLess(b, a)
  {
    if a != "" && b != "" {
      StrLessTotal(a[1..], b[1..]);
      assert a == [a[0]] + a[1..] && b == [b[0]] + b[1..];
    }
  }

  lemma StrLessTransitive(a: string, b: string, c: string)
    requires StrLess(a, b) && StrLess(b, c)
    ensures StrLess(a, c)
  {
    if a != "" && a[0] == b[0] == c[0] {
      StrLessTransitive(a[1..], b[1..], c[1..]);
    }
  }

  lemma StrLessIrreflexive(a: string)
    ensures !StrLess(a, a)
  {
  }

  /** The order is decided by the first character that differs, or by a shorter text ending. */
  lemma {:induction false} StrLessIff(a: string, b: string)
    ensures StrLess(a, b) <==>
      exists k :: 0 <= k <= |a| && k < |b| && a[..k] == b[..k] && (k == |a| || a[k] < b[k])
  {
    if b != "" && (a == "" || a[0] < b[0]) {
      assert a[..0] == b[..0];
    } else if b != "" && a[0] == b[0] {
      var x, y := a[1..], b[1..];
      StrLessIff(x, y);
      if k :| 0 <= k <= |x| && k < |y| && x[..k] == y[..k] && (k == |x| || x[k] < y[k]) {
        assert a[..k + 1] == [a[0]] + x[..k] && b[..k + 1] == [b[0]] + y[..k];
      }
      if k :| 0 <= k <= |a| && k < |b| && a[..k] == b[..k] && (k == |a| || a[k] < b[k]) {
        assert k > 0;
        assert x[..k - 1] == a[..k][1..] && y[..k - 1] == b[..k][1..];
      }
    } else if b != "" {
      forall k | 0 < k <= |a| && k < |b| ensures a[..k] != b[..k] { assert a[..k][0] != b[..k][0]; }
    }
  }

  /** `strings.Contains`: some suffix of `text` starts with `q`. */
  predicate Contains(text: string, q: string)
  {
    q <= text || (text != "" && Contains(text[1..], q))
  }

  lemma {:induction false} ContainsIff(text: string, q: string)
    ensures Contains(text, q) <==> exists a: string, b: string :: text == a + q + b
  {
    if q <= text { assert text == "" + q + text[|q|..]; }
    if text != "" {
      ContainsIff(text[1..], q);
      if a: string, b: string :| text[1..] == a + q + b { assert text == ([text[0]] + a) + q + b; }
      if a: string, b: string :| text == a + q + b && a != "" { assert text[1..] == a[1..] + q + b; }
    }
    forall b: string | text == "" + q + b ensures q <= text { }
  }
}
