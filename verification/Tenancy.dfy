/** Organization scopes: where a store writes and the ordered organizations it reads. */
module Tenancy {
  import opened Common
  import opened CatalogTables

  const DEFAULT_ORG: Org := "default"

  function NormalizeOrg(o: Org): Org { if o == "" then DEFAULT_ORG else o }

  /** A sequence without its later duplicates. */
  function Dedup(s: seq<Org>): (r: seq<Org>)
    ensures forall o :: o in r <==> o in s
  {
    if s == [] then []
    else
      var front, last := Dedup(s[..|s| - 1]), s[|s| - 1];
      assert s == s[..|s| - 1] + [last];
      if last in front then front else front + [last]
  }

  function Normalized(write: Org, read: seq<Org>): seq<Org>
  {
    Dedup([NormalizeOrg(write)] + seq(|read|, i requires 0 <= i < |read| => NormalizeOrg(read[i])))
  }

  /** A scope holds the write org and every org to be read, blanks as "default", and no other. */
  lemma NormalizedHolds(write: Org, read: seq<Org>, o: Org)
    ensures o in Normalized(write, read) <==>
      o != "" && (o == write || o in read || (o == "default" && (write == "" || "" in read)))
  {
    var rest := seq(|read|, i requires 0 <= i < |read| => NormalizeOrg(read[i]));
    var all := [NormalizeOrg(write)] + rest;
    assert o in all <==> o == NormalizeOrg(write) || o in rest;
    if o != "" && o in read {
      var i :| 0 <= i < |read| && read[i] == o;
      assert rest[i] == o;
    }
    if "" in read {
      var i :| 0 <= i < |read| && read[i] == "";
      assert rest[i] == DEFAULT_ORG;
    }
  }

  lemma DedupMore(s: seq<Org>, x: Org)
    ensures Dedup(s + [x]) == if x in Dedup(s) then Dedup(s) else Dedup(s) + [x]
  {
    assert (s + [x])[..|s|] == s;
  }

  lemma {:induction false} DedupDistinct(s: seq<Org>)
    ensures forall i, j :: 0 <= i < j < |Dedup(s)| ==> Dedup(s)[i] != Dedup(s)[j]
    ensures s != [] ==> Dedup(s) != [] && Dedup(s)[0] == s[0]
  {
    if s != [] { DedupDistinct(s[..|s| - 1]); }
  }

  /** NewOrgScope: the write org first, blanks defaulted, duplicates dropped. */
  method NewOrgScope(write: Org, read: seq<Org>) returns (orgs: seq<Org>)
    ensures orgs == Normalized(write, read)
    ensures orgs != [] && orgs[0] == (if write == "" then "default" else write)
    ensures forall i, j :: 0 <= i < j < |orgs| ==> orgs[i] != orgs[j]
  {
    var first := NormalizeOrg(write);
    ghost var all := [first] + seq(|read|, i requires 0 <= i < |read| => NormalizeOrg(read[i]));
    orgs := [first];
    assert all[..1] == [] + [first];
    DedupMore([], first);
    for i := 0 to |read|
      invariant orgs == Dedup(all[..i + 1])
    {
      var org := NormalizeOrg(read[i]);
      assert all[..i + 2] == all[..i + 1] + [org];
      DedupMore(all[..i + 1], org);
      if org !in orgs {
        orgs := orgs + [org];
      }
    }
    assert all[..|read| + 1] == all;
    DedupDistinct(all);
  }

  lemma {:induction false} FirstInFront(s: seq<Org>, x: Org, present: set<Org>)
    ensures FirstIn(s + [x], present)
            == (if FirstIn(s, present).Some? then FirstIn(s, present) else if x in present then Some(x) else None)
  {
    if s == [] {
      assert s + [x] == [x];
    } else {
      assert (s + [x])[1..] == s[1..] + [x];
      FirstInFront(s[1..], x, present);
    }
  }

  /** Dropping duplicates never changes which organization a read ranks first. */
  lemma {:induction false} DedupKeepsPrecedence(s: seq<Org>, present: set<Org>)
    ensures FirstIn(Dedup(s), present) == FirstIn(s, present)
  {
    if s != [] {
      var front, last := s[..|s| - 1], s[|s| - 1];
      DedupKeepsPrecedence(front, present);
      assert s == front + [last];
      FirstInFront(front, last, present);
      FirstInFront(Dedup(front), last, present);
    }
  }
}
