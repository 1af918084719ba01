/** Pages of the pattern list: the SQL page over the tables and its in-memory
    twin, both cut from the one listing by (count descending, id ascending). */
module CatalogPaging {
  import opened Common
  import opened Patterns
  import opened CatalogTables
  import opened CatalogQueries
  import Tokenizer

  const DEFAULT_PAGE_SIZE: int := 1000

  /** The sort order of sqlCatalogPageLogs and pagePatterns. */
  predicate Before(a: Pattern, b: Pattern)
  {
    a.count > b.count || (a.count == b.count && StrLess(a.id, b.id))
  }

  ghost predicate Sorted(rows: seq<Pattern>)
  {
    forall i, j :: 0 <= i < j < |rows| ==> Before(rows[i], rows[j])
  }

  ghost predicate Keyed(m: map<Id, Pattern>)
  {
    forall id <- m :: m[id].id == id
  }

  /** `rows` lists exactly the rows of `m`, in page order. */
  ghost predicate IsListing(rows: seq<Pattern>, m: map<Id, Pattern>)
  {
    Sorted(rows) && forall p :: p in rows <==> p.id in m && m[p.id] == p
  }

  lemma BeforeTotal(a: Pattern, b: Pattern)
    ensures a.id == b.id || Before(a, b) || Before(b, a)
  {
    StrLessTotal(a.id, b.id);
  }

  lemma BeforeTransitive(a: Pattern, b: Pattern, c: Pattern)
    requires Before(a, b) && Before(b, c)
    ensures Before(a, c)
  {
    if a.count == b.count == c.count { StrLessTransitive(a.id, b.id, c.id); }
  }

  lemma BeforeIrreflexive(a: Pattern)
    ensures !Before(a, a)
  {
    StrLessIrreflexive(a.id);
  }

  lemma {:induction false} ListingSize(rows: seq<Pattern>, m: map<Id, Pattern>)
    requires IsListing(rows, m) && Keyed(m)
    ensures |rows| == |m|
    decreases |rows|
  {
    assert forall id :: id in m ==> m[id] in rows;
    if rows == [] {
      assert forall id :: id !in m;
      assert m.Keys == {};
    } else {
      assert rows[0] in rows;
      TailListing(rows, m);
      ListingSize(rows[1..], m - {rows[0].id});
      assert m.Keys == (m - {rows[0].id}).Keys + {rows[0].id};
    }
  }

  /** Two listings of the same rows are the same sequence, so the page order is
      fully determined: pages cannot drift between requests. */
  lemma {:induction false} ListingUnique(a: seq<Pattern>, b: seq<Pattern>, m: map<Id, Pattern>)
    requires IsListing(a, m) && IsListing(b, m) && Keyed(m)
    ensures a == b
    decreases |a|
  {
    ListingSize(a, m);
    ListingSize(b, m);
    if a != [] {
      SameHead(a, b, m);
      TailListing(a, m);
      TailListing(b, m);
      ListingUnique(a[1..], b[1..], m - {a[0].id});
      assert a == [a[0]] + a[1..] && b == [b[0]] + b[1..];
    }
  }

  lemma SameHead(a: seq<Pattern>, b: seq<Pattern>, m: map<Id, Pattern>)
    requires IsListing(a, m) && IsListing(b, m) && a != [] && b != []
    ensures a[0] == b[0]
  {
    assert a[0] in a && b[0] in b;
    assert a[0] in b && b[0] in a;
    var i :| 0 <= i < |b| && b[i] == a[0];
    var j :| 0 <= j < |a| && a[j] == b[0];
    if a[0] != b[0] {
      assert Before(b[0], a[0]) && Before(a[0], b[0]);
      BeforeTransitive(a[0], b[0], a[0]);
      BeforeIrreflexive(a[0]);
      assert false;
    }
  }

  lemma TailListing(a: seq<Pattern>, m: map<Id, Pattern>)
    requires IsListing(a, m) && a != []
    ensures IsListing(a[1..], m - {a[0].id})
  {
    var rest := m - {a[0].id};
    assert a[0] in a;
    forall p ensures p in a[1..] <==> p.id in rest && rest[p.id] == p {
      if p in a[1..] {
        var i :| 0 <= i < |a[1..]| && a[1..][i] == p;
        assert a[i + 1] == p && p in a;
        assert Before(a[0], a[i + 1]);
        BeforeIrreflexive(a[0]);
        if p.id == a[0].id {
          assert false;
        }
      }
      if p.id in rest && rest[p.id] == p {
        assert p in a;
        var i :| 0 <= i < |a| && a[i] == p;
        assert i != 0;
        assert a[1..][i - 1] == p;
      }
    }
  }

  /** Insertion into a sorted list keeps it sorted: one step of the library sort. */
  function Insert(p: Pattern, rows: seq<Pattern>): (r: seq<Pattern>)
    ensures forall q :: q in r <==> q == p || q in rows
  {
    if rows == [] then [p]
    else if Before(p, rows[0]) then [p] + rows
    else
      var r := [rows[0]] + Insert(p, rows[1..]);
      assert rows == [rows[0]] + rows[1..];
      r
  }

  lemma {:induction false} InsertSorted(p: Pattern, rows: seq<Pattern>)
    requires Sorted(rows) && forall q :: q in rows ==> q.id != p.id
    ensures Sorted(Insert(p, rows))
  {
    if rows != [] {
      var r := Insert(p, rows);
      if Before(p, rows[0]) {
        forall j | 0 < j < |r| ensures Before(r[0], r[j]) {
          if j > 1 { BeforeTransitive(p, rows[0], rows[j - 1]); }
        }
      } else {
        assert rows[0] in rows;
        BeforeTotal(p, rows[0]);
        InsertSorted(p, rows[1..]);
        var tail := Insert(p, rows[1..]);
        forall j | 0 <= j < |tail| ensures Before(rows[0], tail[j]) {
          assert tail[j] in tail;
          if tail[j] != p {
            var i :| 0 <= i < |rows[1..]| && rows[1..][i] == tail[j];
            assert rows[i + 1] == tail[j];
          }
        }
      }
    }
  }

  /** `ORDER BY agg.total_count DESC, p.id ASC`. */
  ghost function ListingOf(m: map<Id, Pattern>): (rows: seq<Pattern>)
    requires Keyed(m)
    ensures IsListing(rows, m)
    decreases |m|
  {
    if m.Keys == {} then [] else
      var id := Pick(m.Keys);
      var rest := m - {id};
      var tail := ListingOf(rest);
      InsertSorted(m[id], tail);
      var rows := Insert(m[id], tail);
      assert forall p :: p in rows <==> p.id in m && m[p.id] == p by {
        forall p ensures p in rows <==> p.id in m && m[p.id] == p {
          assert p in tail <==> p.id in rest && rest[p.id] == p;
        }
      }
      rows
  }

  // ---- windows -----------------------------------------------------------------------

  function Offset(total: nat, offset: int): (o: nat)
    ensures o <= total
  {
    var o := if offset < 0 then 0 else offset;
    if o > total then total else o
  }

  function End(total: nat, offset: int, limit: int): (e: nat)
    ensures Offset(total, offset) <= e <= total
  {
    var size := if limit <= 0 then DEFAULT_PAGE_SIZE else limit;
    var e := Offset(total, offset) + size;
    if e > total then total else e
  }

  /** The `[offset, offset + limit)` window with the clamps of sliceBounds/sliceEnd. */
  function Window(rows: seq<Pattern>, offset: int, limit: int): seq<Pattern>
  {
    rows[Offset(|rows|, offset)..End(|rows|, offset, limit)]
  }

  /** ListPatternsPage: LIMIT/OFFSET over the ordered population. */
  ghost function SqlPage(t: Tables, scope: seq<Org>, search: string, service: string, offset: int,
                         limit: int): seq<Pattern>
  {
    Window(ListingOf(PagePopulation(t, scope, search, service)), offset, limit)
  }

  /** A page goes by falling count, equal counts by rising id; it holds the rows from its offset
      on, up to its limit - 1000 when none is given - or to the end. */
  ghost predicate IsPage(rows: seq<Pattern>, all: seq<Pattern>, offset: int, limit: int)
  {
    var from, most := if offset < 0 then 0 else offset, if limit > 0 then limit else 1000;
    && (forall i, j :: 0 <= i < j < |rows| ==>
          rows[i].count > rows[j].count || (rows[i].count == rows[j].count && StrLess(rows[i].id, rows[j].id)))
    && (forall i :: 0 <= i < |rows| ==> from + i < |all| && rows[i] == all[from + i])
    && |rows| <= most && (|rows| < most ==> from + |rows| >= |all|)
  }

  lemma WindowIsPage(all: seq<Pattern>, offset: int, limit: int)
    requires Sorted(all)
    ensures IsPage(Window(all, offset, limit), all, offset, limit)
  {
    var rows := Window(all, offset, limit);
    forall i, j | 0 <= i < j < |rows| ensures Before(rows[i], rows[j]) {
      assert Before(all[Offset(|all|, offset) + i], all[Offset(|all|, offset) + j]);
    }
  }

  lemma PageIsOrdered(t: Tables, scope: seq<Org>, search: string, service: string, offset: int, limit: int)
    ensures IsPage(SqlPage(t, scope, search, service, offset, limit),
        ListingOf(PagePopulation(t, scope, search, service)),
                   offset, limit)
  {
    WindowIsPage(ListingOf(PagePopulation(t, scope, search, service)), offset, limit);
  }

  /** `k` consecutive pages of one size, one after the other. */
  ghost function PagesFrom(t: Tables, scope: seq<Org>, search: string, service: string, limit: nat,
                           k: nat): seq<Pattern>
  {
    if k == 0 then []
    else PagesFrom(t, scope, search, service, limit, k - 1) + SqlPage(t, scope, search, service, (k - 1) * limit, limit)
  }

  ghost function Windows(rows: seq<Pattern>, limit: nat, k: nat): seq<Pattern>
  {
    if k == 0 then [] else Windows(rows, limit, k - 1) + Window(rows, (k - 1) * limit, limit)
  }

  lemma {:induction false} WindowsAreAPrefix(rows: seq<Pattern>, limit: nat, k: nat)
    requires limit > 0
    ensures Windows(rows, limit, k) == rows[..Offset(|rows|, k * limit)]
  {
    if k > 0 {
      WindowsAreAPrefix(rows, limit, k - 1);
      var a := Offset(|rows|, (k - 1) * limit);
      assert k * limit == (k - 1) * limit + limit;
      assert (k - 1) * limit >= 0;
      assert End(|rows|, (k - 1) * limit, limit) == Offset(|rows|, k * limit);
      assert rows[..a] + rows[a..Offset(|rows|, k * limit)] == rows[..Offset(|rows|, k * limit)];
    } else {
      assert rows[..0] == [];
    }
  }

  lemma {:induction false} PagesAreWindows(t: Tables, scope: seq<Org>, search: string, service: string, limit: nat,
                                           k: nat)
    ensures PagesFrom(t, scope, search, service, limit, k)
            == Windows(ListingOf(PagePopulation(t, scope, search, service)), limit, k)
  {
    if k > 0 { PagesAreWindows(t, scope, search, service, limit, k - 1); }
  }

  lemma WindowsCoverListing(rows: seq<Pattern>, m: map<Id, Pattern>, limit: nat, k: nat)
    requires IsListing(rows, m) && Keyed(m) && limit > 0 && k * limit >= |m|
    ensures Windows(rows, limit, k) == rows && |rows| == |m|
  {
    ListingSize(rows, m);
    WindowsAreAPrefix(rows, limit, k);
    assert rows[..|rows|] == rows;
  }

  /** Enough consecutive pages concatenate to exactly the filtered Snapshot,
      each row once, sorted by (count desc, id asc). */
  lemma PagesCoverSnapshot(t: Tables, scope: seq<Org>, search: string, service: string, limit: nat, k: nat)
    requires limit > 0 && k * limit >= Count(t, scope, search, service)
    ensures IsListing(PagesFrom(t, scope, search, service, limit, k), Filtered(Snapshot(t, scope), search, service))
    ensures |PagesFrom(t, scope, search, service, limit, k)| == Count(t, scope, search, service)
  {
    CountIsPagePopulation(t, scope, search, service);
    var page := PagePopulation(t, scope, search, service);
    WindowsCoverListing(ListingOf(page), page, limit, k);
    PagesAreWindows(t, scope, search, service, limit, k);
    CountAndPageAgreeWithSnapshot(t, scope, search, service);
  }

  // ---- the in-memory twin ---------------------------------------------------------------

  ghost predicate Distinct(all: seq<Pattern>)
  {
    forall i, j :: 0 <= i < j < |all| ==> all[i].id != all[j].id
  }

  function ById(all: seq<Pattern>): (m: map<Id, Pattern>)
    ensures forall id <- m :: m[id].id == id
  {
    if all == [] then map[] else ById(all[..|all| - 1])[all[|all| - 1].id := all[|all| - 1]]
  }

  lemma {:induction false} ByIdRows(all: seq<Pattern>)
    requires Distinct(all)
    ensures forall p :: p in all <==> p.id in ById(all) && ById(all)[p.id] == p
  {
    if all != [] {
      var front, last := all[..|all| - 1], all[|all| - 1];
      ByIdRows(front);
      assert all == front + [last];
      forall p ensures p in all <==> p.id in ById(all) && ById(all)[p.id] == p {
        if p in front { LastIsNew(all, p); }
      }
    }
  }

  lemma LastIsNew(all: seq<Pattern>, p: Pattern)
    requires Distinct(all) && all != [] && p in all[..|all| - 1]
    ensures p.id != all[|all| - 1].id
  {
    var i :| 0 <= i < |all| - 1 && all[i] == p;
  }

  /** pagePatterns: trim the query, then filter, sort and slice a materialized set, whatever order the
      map iteration produced it in. Its page is the SQL page's window over the
      listing of the filtered rows, and its total their number. */
  method PagePatterns(all: seq<Pattern>, searchText: string, serviceText: string, offset: int, limit: int)
    returns (page: seq<Pattern>, total: nat)
    requires Distinct(all)
    ensures var shown := Filtered(ById(all), Tokenizer.TrimSpace(searchText), Tokenizer.TrimSpace(serviceText));
      total == |shown| && page == Window(ListingOf(shown), offset, limit)
  {
    var search, service := Tokenizer.TrimSpace(searchText), Tokenizer.TrimSpace(serviceText);
    var sorted := [];
    var i := 0;
    ByIdRows(all);
    while i < |all|
      invariant 0 <= i <= |all|
      invariant Sorted(sorted)
      invariant forall p :: p in sorted <==> p in all[..i] && MemoryFilter(p, search, service)
    {
      if MemoryFilter(all[i], search, service) {
        forall q | q in sorted ensures q.id != all[i].id {
          var j :| 0 <= j < i && all[j] == q;
        }
        InsertSorted(all[i], sorted);
        sorted := Insert(all[i], sorted);
      }
      assert all[..i + 1] == all[..i] + [all[i]];
      i := i + 1;
    }
    assert all[..|all|] == all;
    ghost var m := Filtered(ById(all), search, service);
    assert IsListing(sorted, m);
    ListingSize(sorted, m);
    ListingUnique(sorted, ListingOf(m), m);
    total := |sorted|;
    page := sorted[Offset(total, offset)..End(total, offset, limit)];
    assert page == Window(sorted, offset, limit);
  }

  /** The two pagers agree: over the Snapshot rows, in whatever order they were
      materialized, the in-memory page and total are the SQL page and count. */
  lemma MemoryPageIsSqlPage(t: Tables, scope: seq<Org>, search: string, service: string, offset: int, limit: int,
                            all: seq<Pattern>)
    requires Distinct(all) && forall p :: p in all <==> p.id in Snapshot(t, scope) && Snapshot(t, scope)[p.id] == p
    ensures Window(ListingOf(Filtered(ById(all), search, service)), offset, limit)
            == SqlPage(t, scope, search, service, offset, limit)
    ensures |Filtered(ById(all), search, service)| == Count(t, scope, search, service)
  {
    CountAndPageAgreeWithSnapshot(t, scope, search, service);
    ByIdRows(all);
    SameRows(ById(all), Snapshot(t, scope), all);
  }

  lemma SameRows(a: map<Id, Pattern>, b: map<Id, Pattern>, all: seq<Pattern>)
    requires Keyed(a) && Keyed(b)
    requires forall p :: p in all <==> p.id in a && a[p.id] == p
    requires forall p :: p in all <==> p.id in b && b[p.id] == p
    ensures a == b
  {
    assert forall id :: id in a ==> a[id] in all;
    assert forall id :: id in b ==> b[id] in all;
    assert a.Keys == b.Keys;
  }
}
