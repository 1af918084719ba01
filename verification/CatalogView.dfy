/** What a fleet row is made of: which rows it takes, and how it combines those of several
    instances. The laws hold for any number of instances and orgs. */
module CatalogView {
  import opened Common
  import opened Patterns
  import opened CatalogTables
  import opened CatalogQueries

  // ---- which rows ------------------------------------------------------------------------

  /** No org that ranks before `o` in the scope has the property. */
  ghost predicate RanksFirst(scope: seq<Org>, o: Org, has: Org -> bool)
  {
    exists i :: 0 <= i < |scope| && scope[i] == o && has(o) && forall j :: 0 <= j < i ==> !has(scope[j])
  }

  /** The root read of an id is that of the first org of the scope that has one. */
  lemma RootRanksFirst(t: Tables, scope: seq<Org>, id: Id)
    ensures var c := ChosenRoot(t, scope, id);
      if c.Some? then RanksFirst(scope, c.value.0, (o: Org) => (o, id) in t.roots)
          && c.value.1 == t.roots[(c.value.0, id)]
      else forall o <- scope :: (o, id) !in t.roots
  {
    forall o ensures o in RootOrgs(t, id) <==> (o, id) in t.roots {
      if (o, id) in t.roots { assert (o, id).0 in RootOrgs(t, id); }
    }
  }

  /** The learned row read of a partition is that of the first org that has one. */
  lemma LogRanksFirst(t: Tables, scope: seq<Org>, id: Id, inst: int)
    ensures var r := RankedLog(t, scope, id, inst);
      if r.Some? then
        RanksFirst(scope, r.value.0, (o: Org) => (o, id, inst) in t.logs) && r.value.1 == t.logs[(r.value.0, id, inst)]
      else forall o <- scope :: (o, id, inst) !in t.logs
  {
    forall o ensures o in LogOrgs(t, id, inst) <==> (o, id, inst) in t.logs {
      if (o, id, inst) in t.logs { assert (o, id, inst).0 in LogOrgs(t, id, inst); }
    }
  }

  /** The service row read of a name is that of the first org that has one. */
  lemma ServiceRanksFirst(t: Tables, scope: seq<Org>, name: string)
    ensures var c := ChosenService(t, scope, name);
      if c.Some? then
        RanksFirst(scope, c.value.0, (o: Org) => (o, name) in t.services) && c.value.1 == t.services[(c.value.0, name)]
      else forall o <- scope :: (o, name) !in t.services
  {
    forall o ensures o in ServiceOrgs(t, name) <==> (o, name) in t.services {
      if (o, name) in t.services { assert (o, name).0 in ServiceOrgs(t, name); }
    }
  }

  /** A partition is counted exactly when its row is of the root's own org, or was persisted
      after that root's reset, if it had one. */
  lemma CountedIff(t: Tables, scope: seq<Org>, id: Id, inst: int)
    ensures inst in ChosenLogs(t, scope, id) <==>
      var c, r := ChosenRoot(t, scope, id), RankedLog(t, scope, id, inst);
      && c.Some? && r.Some?
      && (r.value.0 == c.value.0
          || forall reset :: c.value.1.resetAt == Some(reset) ==> r.value.1.persistedAt > reset)
  {
  }

  /** An id is reported exactly when its root is not deleted and some partition is counted. */
  lemma ReportedIff(t: Tables, scope: seq<Org>, id: Id)
    ensures id in Snapshot(t, scope) <==>
      var c := ChosenRoot(t, scope, id);
      c.Some? && !c.value.1.deleted && exists inst :: inst in ChosenLogs(t, scope, id)
  {
    var rows := ChosenLogs(t, scope, id);
    if rows.Keys != {} { assert MinKey(rows.Keys) in rows; }
  }

  // ---- how they are combined ----------------------------------------------------------------

  lemma {:induction false} SumRealSplit(m: map<int, real>, k: int)
    requires k in m
    ensures SumReal(m) == m[k] + SumReal(m - {k})
    decreases |m|
  {
    var j := MinKey(m.Keys);
    if j != k {
      SumRealSplit(m - {j}, k);
      SumRealSplit(m - {k}, j);
      assert (m - {j}) - {k} == (m - {k}) - {j};
    }
  }

  /** The sums along a list of keys. */
  function IntsAlong(m: map<int, int>, order: seq<int>): int
    requires forall j :: 0 <= j < |order| ==> order[j] in m
  {
    if order == [] then 0 else IntsAlong(m, order[..|order| - 1]) + m[order[|order| - 1]]
  }

  function RealsAlong(m: map<int, real>, order: seq<int>): real
    requires forall j :: 0 <= j < |order| ==> order[j] in m
  {
    if order == [] then 0.0 else RealsAlong(m, order[..|order| - 1]) + m[order[|order| - 1]]
  }

  /** A list of the keys, each once: as many as there are. */
  ghost predicate Enumerates(order: seq<int>, keys: set<int>)
  {
    && |order| == |keys| && (forall j :: 0 <= j < |order| ==> order[j] in keys)
    && (forall i, j :: 0 <= i < j < |order| ==> order[i] != order[j])
  }

  lemma EnumeratesFront(order: seq<int>, keys: set<int>)
    requires Enumerates(order, keys) && order != []
    ensures Enumerates(order[..|order| - 1], keys - {order[|order| - 1]})
  {
  }

  lemma {:induction false} SumIntAlong(m: map<int, int>, order: seq<int>)
    requires Enumerates(order, m.Keys)
    ensures SumInt(m) == IntsAlong(m, order)
    decreases |order|
  {
    if order == [] {
      assert m.Keys == {};
    } else {
      var last, front := order[|order| - 1], order[..|order| - 1];
      EnumeratesFront(order, m.Keys);
      assert (m - {last}).Keys == m.Keys - {last};
      SumIntSplit(m, last);
      SumIntAlong(m - {last}, front);
      IntsAlongLess(m, last, front);
    }
  }

  lemma {:induction false} IntsAlongLess(m: map<int, int>, k: int, order: seq<int>)
    requires forall j :: 0 <= j < |order| ==> order[j] in m && order[j] != k
    ensures IntsAlong(m - {k}, order) == IntsAlong(m, order)
  {
    if order != [] { IntsAlongLess(m, k, order[..|order| - 1]); }
  }

  lemma {:induction false} SumRealAlong(m: map<int, real>, order: seq<int>)
    requires Enumerates(order, m.Keys)
    ensures SumReal(m) == RealsAlong(m, order)
    decreases |order|
  {
    if order == [] {
      assert m.Keys == {};
    } else {
      var last, front := order[|order| - 1], order[..|order| - 1];
      EnumeratesFront(order, m.Keys);
      assert (m - {last}).Keys == m.Keys - {last};
      SumRealSplit(m, last);
      SumRealAlong(m - {last}, front);
      RealsAlongLess(m, last, front);
    }
  }

  lemma {:induction false} RealsAlongLess(m: map<int, real>, k: int, order: seq<int>)
    requires forall j :: 0 <= j < |order| ==> order[j] in m && order[j] != k
    ensures RealsAlong(m - {k}, order) == RealsAlong(m, order)
  {
    if order != [] { RealsAlongLess(m, k, order[..|order| - 1]); }
  }

  /** Added up instance by instance, in any order. */
  function CountsOf(rows: map<int, LogRow>, order: seq<int>): int
    requires forall j :: 0 <= j < |order| ==> order[j] in rows
  {
    if order == [] then 0 else CountsOf(rows, order[..|order| - 1]) + rows[order[|order| - 1]].count
  }

  function RatesOf(rows: map<int, LogRow>, order: seq<int>): real
    requires forall j :: 0 <= j < |order| ==> order[j] in rows
  {
    if order == [] then 0.0 else RatesOf(rows, order[..|order| - 1]) + rows[order[|order| - 1]].baselineFrequency
  }

  lemma {:induction false} AlongRows(rows: map<int, LogRow>, order: seq<int>)
    requires forall j :: 0 <= j < |order| ==> order[j] in rows
    ensures IntsAlong(Counts(rows), order) == CountsOf(rows, order)
    ensures RealsAlong(Rates(rows), order) == RatesOf(rows, order)
  {
    if order != [] { AlongRows(rows, order[..|order| - 1]); }
  }

  ghost predicate AddsUp(p: Pattern, rows: map<int, LogRow>, order: seq<int>)
    requires Enumerates(order, rows.Keys)
  {
    p.count == CountsOf(rows, order) && p.baselineFrequency == RatesOf(rows, order)
  }

  lemma FleetAddsUp(id: Id, c: (Org, Root), rows: map<int, LogRow>, order: seq<int>)
    requires rows.Keys != {} && Enumerates(order, rows.Keys)
    ensures AddsUp(FleetRow(id, c, rows), rows, order)
  {
    assert Counts(rows).Keys == rows.Keys && Rates(rows).Keys == rows.Keys;
    SumIntAlong(Counts(rows), order);
    SumRealAlong(Rates(rows), order);
    AlongRows(rows, order);
  }

  /** The sightings and the per-second rate of a fleet row add up those of the counted
      partitions, in whatever order they are taken. */
  lemma SnapshotAddsUp(t: Tables, scope: seq<Org>, id: Id, order: seq<int>)
    requires id in Snapshot(t, scope) && Enumerates(order, ChosenLogs(t, scope, id).Keys)
    ensures AddsUp(Snapshot(t, scope)[id], ChosenLogs(t, scope, id), order)
  {
    FleetAddsUp(id, ChosenRoot(t, scope, id).value, ChosenLogs(t, scope, id), order);
  }

  /** A fleet row was first seen when some counted partition first saw it, and none before;
      and last seen when some counted partition last saw it, and none after. */
  lemma SnapshotSpansSightings(t: Tables, scope: seq<Org>, id: Id)
    requires id in Snapshot(t, scope)
    ensures var p, rows := Snapshot(t, scope)[id], ChosenLogs(t, scope, id);
      && (exists i :: i in rows && rows[i].firstSeen == p.firstSeen)
          && (forall i <- rows :: p.firstSeen <= rows[i].firstSeen)
      && (exists i :: i in rows && rows[i].lastSeen == p.lastSeen)
          && (forall i <- rows :: rows[i].lastSeen <= p.lastSeen)
  {
    var rows := ChosenLogs(t, scope, id);
    SpansSightings(id, ChosenRoot(t, scope, id).value, rows);
  }

  lemma SpansSightings(id: Id, c: (Org, Root), rows: map<int, LogRow>)
    requires rows.Keys != {}
    ensures var p := FleetRow(id, c, rows);
      && (exists i :: i in rows && rows[i].firstSeen == p.firstSeen)
          && (forall i <- rows :: p.firstSeen <= rows[i].firstSeen)
      && (exists i :: i in rows && rows[i].lastSeen == p.lastSeen)
          && (forall i <- rows :: rows[i].lastSeen <= p.lastSeen)
  {
    var p, firsts, lasts := FleetRow(id, c, rows), FirstSeens(rows), LastSeens(rows);
    assert MinKey(rows.Keys) in firsts && MinKey(rows.Keys) in lasts;
    assert p.firstSeen in firsts.Values && p.lastSeen in lasts.Values;
    var i :| i in firsts && firsts[i] == p.firstSeen;
    var j :| j in lasts && lasts[j] == p.lastSeen;
    forall k | k in rows ensures p.firstSeen <= rows[k].firstSeen && rows[k].lastSeen <= p.lastSeen {
      assert k in firsts && k in lasts;
    }
  }

  /** What cannot be added up is all from one partition, the counted one of the lowest
      instance; what operators curate is the root's. */
  lemma SnapshotTakesLowest(t: Tables, scope: seq<Org>, id: Id, lo: int)
    requires id in Snapshot(t, scope) && lo in ChosenLogs(t, scope, id)
        && forall i <- ChosenLogs(t, scope, id) :: lo <= i
    ensures var p, row, c := Snapshot(t, scope)[id], ChosenLogs(t, scope, id)[lo], ChosenRoot(t, scope, id).value;
      && p.template == row.template && p.source == row.source && p.ruleName == row.ruleName && p.samples == row.samples
      && p.baselineVariance == row.baselineVariance && p.baselineAvg == row.baselineAvg
      && p.spikeBaselineMode == row.spikeBaselineMode && p.seasonal == row.seasonal
      && p.orgId == c.0 && p.verdict == c.1.verdict && p.service == c.1.service && p.tags == c.1.tags
  {
    LowestIs(ChosenLogs(t, scope, id).Keys, lo);
    FleetTakesLowest(id, ChosenRoot(t, scope, id).value, ChosenLogs(t, scope, id), lo);
  }

  lemma LowestIs(keys: set<int>, lo: int)
    requires lo in keys && forall i <- keys :: lo <= i
    ensures MinKey(keys) == lo
  {
  }

  lemma FleetTakesLowest(id: Id, c: (Org, Root), rows: map<int, LogRow>, lo: int)
    requires lo in rows && MinKey(rows.Keys) == lo
    ensures var p, row := FleetRow(id, c, rows), rows[lo];
      && p.template == row.template && p.source == row.source && p.ruleName == row.ruleName && p.samples == row.samples
      && p.baselineVariance == row.baselineVariance && p.baselineAvg == row.baselineAvg
      && p.spikeBaselineMode == row.spikeBaselineMode && p.seasonal == row.seasonal
      && p.orgId == c.0 && p.verdict == c.1.verdict && p.service == c.1.service && p.tags == c.1.tags
  {
  }

  /** An instance loads its own partition, whether or not others are counted. */
  lemma LoadTakesOwn(t: Tables, scope: seq<Org>, inst: int, id: Id)
    ensures id in Load(t, scope, inst) <==>
      inst in ChosenLogs(t, scope, id) && !ChosenRoot(t, scope, id).value.1.resetShadow
    ensures id in Load(t, scope, inst) ==>
      var p, row, c := Load(t, scope, inst)[id], ChosenLogs(t, scope, id)[inst], ChosenRoot(t, scope, id).value;
      && p.count == row.count && p.firstSeen == row.firstSeen && p.lastSeen == row.lastSeen
          && p.template == row.template
      && p.baselineFrequency == row.baselineFrequency && p.baselineVariance == row.baselineVariance
      && p.baselineAvg == row.baselineAvg && p.seasonal == row.seasonal && p.spikeBaselineMode == row.spikeBaselineMode
      && p.source == row.source && p.ruleName == row.ruleName && p.samples == row.samples
      && p.orgId == c.0 && p.service == c.1.service && p.tags == c.1.tags
      && p.verdict == if c.1.deleted then KNOWN else c.1.verdict
  {
    SeenIds(t, scope, id);
  }
}
