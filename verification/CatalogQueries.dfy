/** The read side of the typed catalog: Load, Snapshot, Lookup, Count and the
    rows a page is cut from, each a query over the tables. */
module CatalogQueries {
  import opened Common
  import opened Patterns
  import opened CatalogTables
  import opened LikeEscape

  // ---- the common table expressions -------------------------------------------------

  function LogOrgs(t: Tables, id: Id, inst: int): set<Org>
  {
    set k <- t.logs.Keys | k.1 == id && k.2 == inst :: k.0
  }

  /** `ranked_logs ... WHERE precedence = 1` for one (pattern, instance) partition. */
  function RankedLog(t: Tables, scope: seq<Org>, id: Id, inst: int): (r: Option<(Org, LogRow)>)
    ensures r.Some? ==>
      r.value.0 in scope && (r.value.0, id, inst) in t.logs && r.value.1 == t.logs[(r.value.0, id, inst)]
    ensures r.None? <==> forall o :: o in scope ==> (o, id, inst) !in t.logs
    ensures ValidScope(scope) && (scope[0], id, inst) in t.logs ==> r == Some((scope[0], t.logs[(scope[0], id, inst)]))
  {
    assert forall o :: o in LogOrgs(t, id, inst) <==> (o, id, inst) in t.logs by {
      forall o ensures o in LogOrgs(t, id, inst) <==> (o, id, inst) in t.logs {
        if (o, id, inst) in t.logs { assert (o, id, inst).0 in LogOrgs(t, id, inst); }
      }
    }
    match FirstIn(scope, LogOrgs(t, id, inst))
    case None => None
    case Some(o) => Some((o, t.logs[(o, id, inst)]))
  }

  /** A learned row counts for a root of its own org always, for another org's
      root only when it was persisted after that root's reset. */
  predicate Visible(row: (Org, LogRow), root: (Org, Root))
  {
    row.0 == root.0 || root.1.resetAt.None? || row.1.persistedAt > root.1.resetAt.value
  }

  function Instances(t: Tables, scope: seq<Org>, id: Id): set<int>
  {
    set k <- t.logs.Keys | k.1 == id && k.0 in scope :: k.2
  }

  predicate LogChosen(t: Tables, scope: seq<Org>, id: Id, inst: int)
  {
    var c := ChosenRoot(t, scope, id);
    var r := RankedLog(t, scope, id, inst);
    c.Some? && r.Some? && Visible(r.value, c.value)
  }

  /** `chosen_logs` for one id, by instance. */
  function ChosenLogs(t: Tables, scope: seq<Org>, id: Id): (m: map<int, LogRow>)
    ensures forall i :: i in m <==> LogChosen(t, scope, id, i)
    ensures forall i :: i in m ==> LogChosen(t, scope, id, i) && m[i] == RankedLog(t, scope, id, i).value.1
  {
    assert forall i :: LogChosen(t, scope, id, i) ==> i in Instances(t, scope, id) by {
      forall i | LogChosen(t, scope, id, i) ensures i in Instances(t, scope, id) {
        var o := RankedLog(t, scope, id, i).value.0;
        assert (o, id, i) in t.logs.Keys;
      }
    }
    map i <- Instances(t, scope, id) | LogChosen(t, scope, id, i) :: RankedLog(t, scope, id, i).value.1
  }

  function Ids(t: Tables): set<Id> { set k <- t.roots.Keys :: k.1 }

  // ---- Load -------------------------------------------------------------------------

  /** One row of sqlCatalogLoadLogs: this instance's learned partition under the
      curated root, a tombstone folded onto the suppressing verdict. */
  function LoadRow(t: Tables, scope: seq<Org>, inst: int, id: Id): Option<Pattern>
  {
    var c := ChosenRoot(t, scope, id);
    if c.Some? && !c.value.1.resetShadow && LogChosen(t, scope, id, inst) then
      var row := RankedLog(t, scope, id, inst).value.1;
      var root := c.value.1;
      Some(Pattern(id, c.value.0, row.template, row.firstSeen, row.lastSeen, row.count,
                   row.baselineFrequency, row.baselineVariance, row.baselineAvg, row.seasonal,
                   row.spikeBaselineMode, if root.deleted then KNOWN else root.verdict,
                   row.ruleName, row.source, root.service, root.tags, row.samples))
    else None
  }

  function Load(t: Tables, scope: seq<Org>, inst: int): map<Id, Pattern>
  {
    map id <- Ids(t) | LoadRow(t, scope, inst, id).Some? :: LoadRow(t, scope, inst, id).value
  }

  // ---- Snapshot ---------------------------------------------------------------------

  function Counts(rows: map<int, LogRow>): map<int, int> { map i <- rows :: rows[i].count }
  function Rates(rows: map<int, LogRow>): map<int, real> { map i <- rows :: rows[i].baselineFrequency }
  function FirstSeens(rows: map<int, LogRow>): map<int, int> { map i <- rows :: rows[i].firstSeen }
  function LastSeens(rows: map<int, LogRow>): map<int, int> { map i <- rows :: rows[i].lastSeen }

  /** The fleet row: counters summed, sightings spanned, the rest from the
      lowest-index partition, the curated columns from the root. */
  function FleetRow(id: Id, c: (Org, Root), rows: map<int, LogRow>): Pattern
    requires rows.Keys != {}
  {
    var lo := rows[MinKey(rows.Keys)];
    assert MinKey(rows.Keys) in FirstSeens(rows) && MinKey(rows.Keys) in LastSeens(rows);
    Pattern(id, c.0, lo.template, MinValue(FirstSeens(rows)), MaxValue(LastSeens(rows)), SumInt(Counts(rows)),
            SumReal(Rates(rows)), lo.baselineVariance, lo.baselineAvg, lo.seasonal, lo.spikeBaselineMode,
            c.1.verdict, lo.ruleName, lo.source, c.1.service, c.1.tags, lo.samples)
  }

  function SnapshotRow(t: Tables, scope: seq<Org>, id: Id): (r: Option<Pattern>)
    ensures r.Some? ==> r.value.id == id && id in Ids(t)
  {
    SeenIds(t, scope, id);
    var c := ChosenRoot(t, scope, id);
    var rows := ChosenLogs(t, scope, id);
    if c.Some? && !c.value.1.deleted && rows.Keys != {} then Some(FleetRow(id, c.value, rows)) else None
  }

  lemma SeenIds(t: Tables, scope: seq<Org>, id: Id)
    ensures ChosenRoot(t, scope, id).Some? ==> id in Ids(t)
  {
    var c := ChosenRoot(t, scope, id);
    if c.Some? { assert (c.value.0, id) in t.roots.Keys; }
  }

  function Snapshot(t: Tables, scope: seq<Org>): (m: map<Id, Pattern>)
    ensures forall id :: id in m <==> SnapshotRow(t, scope, id).Some?
    ensures forall id :: id in m ==> m[id] == SnapshotRow(t, scope, id).value && m[id].id == id
  {
    map id <- Ids(t) | SnapshotRow(t, scope, id).Some? :: SnapshotRow(t, scope, id).value
  }

  // ---- Lookup -----------------------------------------------------------------------

  /** The tables as sqlCatalogLookupPattern ranks them: only the rows of one id. */
  function OnlyId(t: Tables, id: Id): Tables
  {
    Tables(map k <- t.roots.Keys | k.1 == id :: t.roots[k], map k <- t.logs.Keys | k.1 == id :: t.logs[k], t.services)
  }

  function Lookup(t: Tables, scope: seq<Org>, id: Id): Option<Pattern>
  {
    SnapshotRow(OnlyId(t, id), scope, id)
  }

  // ---- Count and Page ----------------------------------------------------------------

  /** The WHERE of the page and the count over a row's template, id and service. */
  predicate SqlFilter(template: string, id: Id, rowService: string, search: string, service: string)
  {
    && (ILike(template, SearchPattern(search)) || ILike(id, SearchPattern(search))
        || ILike(rowService, SearchPattern(search)))
    && (service == "" || rowService == service)
  }

  /** The in-memory twin: case-insensitive substring search, then the service. */
  predicate MemoryFilter(p: Pattern, search: string, service: string)
  {
    && (search == "" || Contains(Lower(p.template), Lower(search)) || Contains(Lower(p.id), Lower(search))
        || Contains(Lower(p.service), Lower(search)))
    && (service == "" || p.service == service)
  }

  function Filtered(m: map<Id, Pattern>, search: string, service: string): map<Id, Pattern>
  {
    map id <- m | MemoryFilter(m[id], search, service) :: m[id]
  }

  /** One counted id of sqlCatalogCountLogs, which never materializes the row. */
  predicate Counted(t: Tables, scope: seq<Org>, search: string, service: string, id: Id)
  {
    var c := ChosenRoot(t, scope, id);
    var rows := ChosenLogs(t, scope, id);
    && c.Some? && !c.value.1.deleted && rows.Keys != {}
    && SqlFilter(rows[MinKey(rows.Keys)].template, id, c.value.1.service, search, service)
  }

  function Count(t: Tables, scope: seq<Org>, search: string, service: string): nat
  {
    |set id <- Ids(t) | Counted(t, scope, search, service, id)|
  }

  /** The rows sqlCatalogPageLogs orders and cuts. */
  function PagePopulation(t: Tables, scope: seq<Org>, search: string, service: string): map<Id, Pattern>
  {
    map id <- Ids(t) | Counted(t, scope, search, service, id) ::
      FleetRow(id, ChosenRoot(t, scope, id).value, ChosenLogs(t, scope, id))
  }

  // ---- agreement ----------------------------------------------------------------------

  lemma {:induction false} EmptySearchMatches(s: string)
    ensures Contains(s, "")
  {
    assert "" <= s;
  }

  lemma FiltersAgree(p: Pattern, search: string, service: string)
    ensures SqlFilter(p.template, p.id, p.service, search, service) <==> MemoryFilter(p, search, service)
  {
    EscapedILikeIsSubstringSearch(p.template, search);
    EscapedILikeIsSubstringSearch(p.id, search);
    EscapedILikeIsSubstringSearch(p.service, search);
    EmptySearchMatches(Lower(p.template));
  }

  lemma CountedIsKept(t: Tables, scope: seq<Org>, search: string, service: string, id: Id)
    ensures Counted(t, scope, search, service, id)
            <==> SnapshotRow(t, scope, id).Some? && MemoryFilter(SnapshotRow(t, scope, id).value, search, service)
    ensures Counted(t, scope, search, service, id) ==>
              id in Ids(t)
              && FleetRow(id, ChosenRoot(t, scope, id).value, ChosenLogs(t, scope, id))
                  == SnapshotRow(t, scope, id).value
  {
    var c := ChosenRoot(t, scope, id);
    if c.Some? {
      assert (c.value.0, id) in t.roots.Keys;
    }
    var row := SnapshotRow(t, scope, id);
    if row.Some? {
      FiltersAgree(row.value, search, service);
    }
  }

  predicate SameAt(a: map<Id, Pattern>, b: map<Id, Pattern>, id: Id)
  {
    (id in a <==> id in b) && (id in a && id in b ==> a[id] == b[id])
  }

  lemma MapsEqual(a: map<Id, Pattern>, b: map<Id, Pattern>)
    requires forall id :: SameAt(a, b, id)
    ensures a == b
  {
    assert forall id :: id in a <==> id in b by {
      forall id ensures id in a <==> id in b { assert SameAt(a, b, id); }
    }
    assert a.Keys == b.Keys;
    forall id | id in a ensures a[id] == b[id] { assert SameAt(a, b, id); }
  }

  lemma PageKeepsSnapshotRow(t: Tables, scope: seq<Org>, search: string, service: string, id: Id)
    ensures id in PagePopulation(t, scope, search, service) <==> id in Filtered(Snapshot(t, scope), search, service)
    ensures id in PagePopulation(t, scope, search, service) ==>
              PagePopulation(t, scope, search, service)[id] == Filtered(Snapshot(t, scope), search, service)[id]
    ensures id in PagePopulation(t, scope, search, service) <==> id in Ids(t) && Counted(t, scope, search, service, id)
  {
    CountedIsKept(t, scope, search, service, id);
  }

  lemma CountIsPagePopulation(t: Tables, scope: seq<Org>, search: string, service: string)
    ensures Count(t, scope, search, service) == |PagePopulation(t, scope, search, service)|
  {
    var page := PagePopulation(t, scope, search, service);
    assert page.Keys == (set id <- Ids(t) | Counted(t, scope, search, service, id));
    assert |page.Keys| == |page|;
  }

  /** The rows a page is cut from are exactly the filtered Snapshot, and Count is
      their number, in every table state. */
  lemma CountAndPageAgreeWithSnapshot(t: Tables, scope: seq<Org>, search: string, service: string)
    ensures PagePopulation(t, scope, search, service) == Filtered(Snapshot(t, scope), search, service)
    ensures Count(t, scope, search, service) == |Filtered(Snapshot(t, scope), search, service)|
  {
    CountIsPagePopulation(t, scope, search, service);
    MapsEqual(PagePopulation(t, scope, search, service), Filtered(Snapshot(t, scope), search, service)) by {
      forall id ensures SameAt(PagePopulation(t, scope, search, service),
          Filtered(Snapshot(t, scope), search, service), id) {
        PageKeepsSnapshotRow(t, scope, search, service, id);
      }
    }
  }

  /** Two table states hold the same rows of an id. */
  ghost predicate AgreeOn(t: Tables, u: Tables, id: Id)
  {
    && (forall o: Org :: (o, id) in u.roots <==> (o, id) in t.roots)
    && (forall o: Org :: (o, id) in t.roots ==> u.roots[(o, id)] == t.roots[(o, id)])
    && (forall o: Org, i: int :: (o, id, i) in u.logs <==> (o, id, i) in t.logs)
    && (forall o: Org, i: int :: (o, id, i) in t.logs ==> u.logs[(o, id, i)] == t.logs[(o, id, i)])
  }

  lemma SameOrgs(t: Tables, u: Tables, id: Id, inst: int)
    requires AgreeOn(t, u, id)
    ensures RootOrgs(u, id) == RootOrgs(t, id) && LogOrgs(u, id, inst) == LogOrgs(t, id, inst)
  {
    forall o ensures o in RootOrgs(u, id) <==> o in RootOrgs(t, id) {
      if (o, id) in t.roots { assert (o, id).0 in RootOrgs(t, id) && (o, id).0 in RootOrgs(u, id); }
    }
    forall o ensures o in LogOrgs(u, id, inst) <==> o in LogOrgs(t, id, inst) {
      if (o, id, inst) in t.logs {
        assert (o, id, inst).0 in LogOrgs(t, id, inst) && (o, id, inst).0 in LogOrgs(u, id, inst);
      }
    }
  }

  /** The queries rank only an id's own rows. */
  lemma SameReads(t: Tables, u: Tables, scope: seq<Org>, id: Id)
    requires AgreeOn(t, u, id)
    ensures ChosenRoot(u, scope, id) == ChosenRoot(t, scope, id) && ChosenLogs(u, scope, id) == ChosenLogs(t, scope, id)
    ensures SnapshotRow(u, scope, id) == SnapshotRow(t, scope, id)
  {
    SameOrgs(t, u, id, 0);
    forall i: int ensures RankedLog(u, scope, id, i) == RankedLog(t, scope, id, i) { SameOrgs(t, u, id, i); }
    SameChosen(t, u, scope, id);
  }

  lemma SameChosen(t: Tables, u: Tables, scope: seq<Org>, id: Id)
    requires ChosenRoot(u, scope, id) == ChosenRoot(t, scope, id)
    requires forall i :: RankedLog(u, scope, id, i) == RankedLog(t, scope, id, i)
    ensures ChosenLogs(u, scope, id) == ChosenLogs(t, scope, id)
  {
    forall i: int ensures LogChosen(u, scope, id, i) <==> LogChosen(t, scope, id, i) {
      assert RankedLog(u, scope, id, i) == RankedLog(t, scope, id, i);
    }
  }

  /** Lookup ranks only one id's rows, yet returns that id's Snapshot row or nothing. */
  lemma LookupAgreesWithSnapshot(t: Tables, scope: seq<Org>, id: Id)
    ensures Lookup(t, scope, id) == (if id in Snapshot(t, scope) then Some(Snapshot(t, scope)[id]) else None)
  {
    SameReads(t, OnlyId(t, id), scope, id);
  }

  lemma SingletonFleetRow(id: Id, c: (Org, Root), inst: int, rows: map<int, LogRow>)
    requires inst in rows && rows.Keys == {inst}
    ensures MinKey(rows.Keys) == inst
    ensures var p := FleetRow(id, c, rows);
      p.count == rows[inst].count && p.baselineFrequency == rows[inst].baselineFrequency
      && p.firstSeen == rows[inst].firstSeen && p.lastSeen == rows[inst].lastSeen
  {
    var counts, rates := Counts(rows), Rates(rows);
    assert MinKey(rows.Keys) == inst;
    assert counts.Keys == {inst} && rates.Keys == {inst};
    SumSingleton(counts, rates, inst);
    assert inst in FirstSeens(rows) && FirstSeens(rows).Keys == {inst};
    assert inst in LastSeens(rows) && LastSeens(rows).Keys == {inst};
  }

  lemma SingleInstanceRow(t: Tables, scope: seq<Org>, inst: int, id: Id)
    requires ShadowsDeleted(t)
    requires forall k <- t.logs :: k.2 == inst
    requires forall k <- t.roots :: !t.roots[k].deleted
    ensures SnapshotRow(t, scope, id) == LoadRow(t, scope, inst, id)
  {
    var rows := ChosenLogs(t, scope, id);
    forall i: int | i in rows ensures i == inst {
      assert (RankedLog(t, scope, id, i).value.0, id, i) in t.logs;
    }
    if inst in rows {
      assert rows.Keys == {inst};
      SingletonFleetRow(id, ChosenRoot(t, scope, id).value, inst, rows);
    } else {
      assert rows.Keys == {};
    }
  }

  /** With one learning instance and no tombstones, the fleet view and the
      instance's own Load agree field by field. */
  lemma SingleInstanceSnapshotIsLoad(t: Tables, scope: seq<Org>, inst: int)
    requires ShadowsDeleted(t)
    requires forall k <- t.logs :: k.2 == inst
    requires forall k <- t.roots :: !t.roots[k].deleted
    ensures Snapshot(t, scope) == Load(t, scope, inst)
  {
    var view, mine := Snapshot(t, scope), Load(t, scope, inst);
    forall id ensures id in view <==> id in mine { SingleInstanceKey(t, scope, inst, id); }
    forall id | id in view ensures view[id] == mine[id] { SingleInstanceRow(t, scope, inst, id); }
  }

  lemma SingleInstanceKey(t: Tables, scope: seq<Org>, inst: int, id: Id)
    requires ShadowsDeleted(t)
    requires forall k <- t.logs :: k.2 == inst
    requires forall k <- t.roots :: !t.roots[k].deleted
    ensures id in Snapshot(t, scope) <==> id in Load(t, scope, inst)
  {
    SingleInstanceRow(t, scope, inst, id);
    var c := ChosenRoot(t, scope, id);
    if c.Some? {
      assert (c.value.0, id) in t.roots.Keys;
    }
  }

  lemma SnapshotCountIsSum(t: Tables, scope: seq<Org>, id: Id)
    requires id in Snapshot(t, scope)
    ensures Snapshot(t, scope)[id].count == SumInt(Counts(ChosenLogs(t, scope, id)))
  {
  }

  lemma CountsEqual(rows: map<int, LogRow>, counts: map<int, int>)
    requires rows.Keys == counts.Keys && forall i <- rows :: rows[i].count == counts[i]
    ensures SumInt(Counts(rows)) == SumInt(counts)
  {
    assert Counts(rows) == counts;
  }
}
