/** A fleet of instances learning into one organization: each is the single writer
    of its own partition, and the fleet view sums the partitions. Sightings are
    counted independently of the tables, as history. */
module Fleet {
  import opened Common
  import opened Patterns
  import opened CatalogTables
  import opened CatalogQueries
  import opened CatalogCuration

  /** `mem` holds the working set of every running instance; `flushed` and `pending`
      count the sightings each instance has, and has not yet, put into the tables. */
  datatype State = State(tables: Tables, mem: map<int, map<Id, Pattern>>,
                         flushed: (int, Id) -> int, pending: (int, Id) -> int)

  datatype Event =
    | Boot(i: int, loadOk: bool)
    | Observe(i: int, p: Pattern, n: nat)
    | Flush(i: int, services: map<string, ServiceInfo>, ok: bool, now: int)
    | Crash(i: int)
    | Operate(edit: Edit, now: int)

  /** An instance observes and flushes only while it runs, and nobody resets. */
  predicate Enabled(s: State, e: Event)
  {
    match e
    case Observe(i, _, _) => i in s.mem
    case Flush(i, _, _, _) => i in s.mem
    case Operate(edit, _) => !edit.ResetPatterns?
    case _ => true
  }

  function MemCount(s: State, i: int, id: Id): int
  {
    if i in s.mem && id in s.mem[i] then s.mem[i][id].count else 0
  }

  function Forget(pending: (int, Id) -> int, i: int): (int, Id) -> int
  {
    (j, id) => if j == i then 0 else pending(j, id)
  }

  /** A boot that cannot read the catalog starts fresh. */
  function Next(s: State, org: Org, e: Event): State
    requires Enabled(s, e)
  {
    match e
    case Boot(i, loadOk) =>
      s.(mem := s.mem[i := if loadOk then Load(s.tables, [org], i) else map[]], pending := Forget(s.pending, i))
    case Observe(i, p, n) =>
      s.(mem := s.mem[i := s.mem[i][p.id := p.(count := MemCount(s, i, p.id) + n)]],
         pending := (j, id) => if j == i && id == p.id then s.pending(j, id) + n else s.pending(j, id))
    case Flush(i, services, ok, now) =>
      if !ok then s
      else State(PersistTables(s.tables, Writer([org], i), s.mem[i], services, now), s.mem,
                 (j, id) => if j == i then s.flushed(j, id) + s.pending(j, id) else s.flushed(j, id),
                 Forget(s.pending, i))
    case Crash(i) => s.(mem := s.mem - {i}, pending := Forget(s.pending, i))
    case Operate(edit, now) => s.(tables := CurateTables(s.tables, [org], edit, now))
  }

  ghost predicate OneOrg(t: Tables, org: Org)
  {
    && (forall k <- t.roots :: k.0 == org && !t.roots[k].resetShadow)
    && (forall k <- t.logs :: k.0 == org && (org, k.1) in t.roots)
  }

  ghost predicate Conserved(s: State, org: Org)
  {
    forall i: int, id: Id ::
      s.flushed(i, id) == if (org, id, i) in s.tables.logs then s.tables.logs[(org, id, i)].count else 0
  }

  ghost predicate MemoryAhead(s: State)
  {
    forall i: int, id: Id :: i in s.mem ==> MemCount(s, i, id) == s.flushed(i, id) + s.pending(i, id)
  }

  ghost predicate NonNegative(s: State)
  {
    forall i: int, id: Id :: s.flushed(i, id) >= 0 && s.pending(i, id) >= 0
  }

  ghost predicate Inv(s: State, org: Org)
  {
    OneOrg(s.tables, org) && Conserved(s, org) && MemoryAhead(s) && NonNegative(s)
  }

  lemma LoadedCount(t: Tables, org: Org, i: int, id: Id)
    requires OneOrg(t, org)
    ensures id in Load(t, [org], i) <==> (org, id, i) in t.logs
    ensures id in Load(t, [org], i) ==> Load(t, [org], i)[id].count == t.logs[(org, id, i)].count
  {
    if (org, id, i) in t.logs {
      assert (org, id) in t.roots;
      assert (org, id).1 in Ids(t);
    }
    if id in Load(t, [org], i) {
      assert RankedLog(t, [org], id, i).value.0 == org;
    }
  }

  lemma BootKeeps(s: State, org: Org, i: int)
    requires Inv(s, org)
    ensures Inv(Next(s, org, Boot(i, true)), org)
  {
    forall id: Id ensures MemCount(Next(s, org, Boot(i, true)), i, id) == s.flushed(i, id) {
      LoadedCount(s.tables, org, i, id);
    }
  }

  lemma FlushOneOrg(t: Tables, org: Org, i: int, ps: map<Id, Pattern>, services: map<string, ServiceInfo>, now: int)
    requires OneOrg(t, org)
    ensures OneOrg(PersistTables(t, Writer([org], i), ps, services, now), org)
  {
    var u := PersistTables(t, Writer([org], i), ps, services, now);
    forall k | k in u.logs ensures k.0 == org && (org, k.1) in u.roots { }
    forall k | k in u.roots ensures k.0 == org && !u.roots[k].resetShadow { }
  }

  lemma FlushedRow(t: Tables, org: Org, i: int, ps: map<Id, Pattern>, services: map<string, ServiceInfo>, now: int,
                   j: int, id: Id)
    ensures var u := PersistTables(t, Writer([org], i), ps, services, now);
      if j == i && id in ps then (org, id, j) in u.logs && u.logs[(org, id, j)].count == ps[id].count
      else LogAt(u, (org, id, j)) == LogAt(t, (org, id, j))
  {
    if j == i && id in ps {
      assert (org, id, i) in LogKeysOf(Writer([org], i), ps.Keys);
    }
  }

  lemma FlushCounts(s: State, org: Org, i: int, services: map<string, ServiceInfo>, now: int, j: int, id: Id)
    requires Inv(s, org) && i in s.mem
    ensures var n := Next(s, org, Flush(i, services, true, now));
      n.flushed(j, id) == if (org, id, j) in n.tables.logs then n.tables.logs[(org, id, j)].count else 0
  {
    FlushedRow(s.tables, org, i, s.mem[i], services, now, j, id);
    assert MemCount(s, i, id) == s.flushed(i, id) + s.pending(i, id);
    assert s.flushed(i, id) >= 0 && s.pending(i, id) >= 0;
  }

  lemma FlushAhead(s: State, org: Org, i: int, services: map<string, ServiceInfo>, now: int)
    requires MemoryAhead(s) && NonNegative(s) && i in s.mem
    ensures MemoryAhead(Next(s, org, Flush(i, services, true, now)))
        && NonNegative(Next(s, org, Flush(i, services, true, now)))
  {
  }

  lemma FlushKeeps(s: State, org: Org, i: int, services: map<string, ServiceInfo>, now: int)
    requires Inv(s, org) && i in s.mem
    ensures Inv(Next(s, org, Flush(i, services, true, now)), org)
  {
    FlushOneOrg(s.tables, org, i, s.mem[i], services, now);
    forall j: int, id: Id
      ensures var n := Next(s, org, Flush(i, services, true, now));
        n.flushed(j, id) == if (org, id, j) in n.tables.logs then n.tables.logs[(org, id, j)].count else 0 {
      FlushCounts(s, org, i, services, now, j, id);
    }
    FlushAhead(s, org, i, services, now);
  }

  lemma RootEditRows(t: Tables, org: Org, edit: Edit, now: int, k: RootKey)
    requires edit.Label? || edit.MarkKnown? || edit.Repoint? || edit.Delete?
    ensures var u := CurateTables(t, [org], edit, now);
      && u.logs == t.logs
      && (k in t.roots ==> k in u.roots)
      && (k in u.roots ==> k in t.roots || k.0 == org)
      && (k in u.roots && u.roots[k].resetShadow ==> k in t.roots && t.roots[k].resetShadow)
  {
  }

  lemma RootEditOneOrg(t: Tables, org: Org, edit: Edit, now: int)
    requires OneOrg(t, org) && (edit.Label? || edit.MarkKnown? || edit.Repoint? || edit.Delete?)
    ensures OneOrg(CurateTables(t, [org], edit, now), org) && CurateTables(t, [org], edit, now).logs == t.logs
  {
    var u := CurateTables(t, [org], edit, now);
    RootEditRows(t, org, edit, now, ("", ""));
    forall k | k in u.roots ensures k.0 == org && !u.roots[k].resetShadow {
      RootEditRows(t, org, edit, now, k);
    }
    forall k | k in u.logs ensures k.0 == org && (org, k.1) in u.roots {
      RootEditRows(t, org, edit, now, (org, k.1));
    }
  }

  lemma ServiceEditOneOrg(t: Tables, org: Org, edit: Edit, now: int)
    requires OneOrg(t, org) && EditsServices(edit)
    ensures OneOrg(CurateTables(t, [org], edit, now), org) && CurateTables(t, [org], edit, now).logs == t.logs
  {
    ServiceEditKeepsRoots(t, [org], edit, now);
  }

  lemma OperateKeeps(s: State, org: Org, edit: Edit, now: int)
    requires Inv(s, org) && !edit.ResetPatterns?
    ensures Inv(Next(s, org, Operate(edit, now)), org)
  {
    if EditsServices(edit) {
      ServiceEditOneOrg(s.tables, org, edit, now);
    } else {
      RootEditOneOrg(s.tables, org, edit, now);
    }
  }

  /** A crash takes the instance's working set and what it had not flushed, and nothing else. */
  lemma CrashForgets(s: State, org: Org, i: int)
    ensures var n := Next(s, org, Crash(i));
      && n.mem == s.mem - {i} && n.tables == s.tables
      && forall j: int, id: Id ::
        n.flushed(j, id) == s.flushed(j, id) && n.pending(j, id) == if j == i then 0 else s.pending(j, id)
  {
  }

  lemma StepKeeps(s: State, org: Org, e: Event)
    requires Inv(s, org) && Enabled(s, e) && (e.Boot? ==> e.loadOk)
    ensures Inv(Next(s, org, e), org)
  {
    match e
    case Boot(i, _) => BootKeeps(s, org, i);
    case Observe(i, p, n) =>
    case Flush(i, services, ok, now) => if ok { FlushKeeps(s, org, i, services, now); }
    case Crash(i) =>
    case Operate(edit, now) => OperateKeeps(s, org, edit, now);
  }

  ghost predicate ValidEvents(s: State, org: Org, events: seq<Event>)
    decreases |events|
  {
    events == [] || (Enabled(s, events[0]) && ValidEvents(Next(s, org, events[0]), org, events[1..]))
  }

  ghost function RunFleet(s: State, org: Org, events: seq<Event>): State
    requires ValidEvents(s, org, events)
    decreases |events|
  {
    if events == [] then s else RunFleet(Next(s, org, events[0]), org, events[1..])
  }

  const START := State(EMPTY_TABLES, map[], (i: int, id: Id) => 0, (i: int, id: Id) => 0)

  lemma {:induction false} RunKeeps(s: State, org: Org, events: seq<Event>)
    requires Inv(s, org) && ValidEvents(s, org, events)
    requires forall e <- events :: e.Boot? ==> e.loadOk
    ensures Inv(RunFleet(s, org, events), org)
    decreases |events|
  {
    if events != [] {
      StepKeeps(s, org, events[0]);
      RunKeeps(Next(s, org, events[0]), org, events[1..]);
    }
  }

  /** The sightings each partition of a visible id has flushed. */
  ghost function FlushedCounts(s: State, org: Org, id: Id): map<int, int>
  {
    map i <- ChosenLogs(s.tables, [org], id) :: s.flushed(i, id)
  }

  lemma FlushedIsChosen(s: State, org: Org, id: Id, i: int)
    requires Inv(s, org)
    ensures LogChosen(s.tables, [org], id, i) <==> (org, id, i) in s.tables.logs
    ensures LogChosen(s.tables, [org], id, i) ==> RankedLog(s.tables, [org], id, i).value.1.count == s.flushed(i, id)
    ensures !LogChosen(s.tables, [org], id, i) ==> s.flushed(i, id) == 0
  {
    if (org, id, i) in s.tables.logs {
      assert (org, id) in s.tables.roots;
    }
  }

  lemma PartitionsMatch(s: State, org: Org, id: Id)
    requires Inv(s, org)
    ensures var rows := ChosenLogs(s.tables, [org], id);
      rows.Keys == FlushedCounts(s, org, id).Keys && forall i <- rows :: rows[i].count == FlushedCounts(s, org, id)[i]
    ensures forall i: int :: i !in FlushedCounts(s, org, id) ==> s.flushed(i, id) == 0
  {
    forall i: int ensures LogChosen(s.tables, [org], id, i) ==>
        RankedLog(s.tables, [org], id, i).value.1.count == s.flushed(i, id)
                  ensures !LogChosen(s.tables, [org], id, i) ==> s.flushed(i, id) == 0 {
      FlushedIsChosen(s, org, id, i);
    }
  }

  lemma InvGivesFleetCount(s: State, org: Org, id: Id)
    requires Inv(s, org) && id in Snapshot(s.tables, [org])
    ensures Snapshot(s.tables, [org])[id].count == SumInt(FlushedCounts(s, org, id))
    ensures forall i: int :: i !in FlushedCounts(s, org, id) ==> s.flushed(i, id) == 0
  {
    PartitionsMatch(s, org, id);
    CountsEqual(ChosenLogs(s.tables, [org], id), FlushedCounts(s, org, id));
    SnapshotCountIsSum(s.tables, [org], id);
  }

  /** Under every interleaving of boots, sightings, flushes that commit or fail,
      crashes and operator edits, the fleet count of a visible id is the sum over
      instances of the sightings each has flushed: no update is lost and no restart
      counts another partition twice. */
  lemma FleetConservation(org: Org, events: seq<Event>, id: Id)
    requires ValidEvents(START, org, events)
    requires forall e <- events :: e.Boot? ==> e.loadOk
    requires id in Snapshot(RunFleet(START, org, events).tables, [org])
    ensures var s := RunFleet(START, org, events);
      Snapshot(s.tables, [org])[id].count == SumInt(FlushedCounts(s, org, id))
      && forall i: int :: i !in FlushedCounts(s, org, id) ==> s.flushed(i, id) == 0
  {
    RunKeeps(START, org, events);
    InvGivesFleetCount(RunFleet(START, org, events), org, id);
  }

  /** A boot whose load failed starts the instance from zero. The next flush then
      keeps the partition's count exactly when nothing of that id had been flushed
      from it before; otherwise the earlier sightings are overwritten. */
  lemma FailedLoadConservesIff(s: State, org: Org, i: int, p: Pattern, n: nat, now: int)
    requires Inv(s, org)
    ensures var booted := Next(s, org, Boot(i, false));
      var seen := Next(booted, org, Observe(i, p, n));
      var after := Next(seen, org, Flush(i, map[], true, now));
      (org, p.id, i) in after.tables.logs
      && (after.tables.logs[(org, p.id, i)].count == after.flushed(i, p.id) <==> s.flushed(i, p.id) == 0)
  {
    var booted := Next(s, org, Boot(i, false));
    var seen := Next(booted, org, Observe(i, p, n));
    assert (org, p.id, i) in LogKeysOf(Writer([org], i), seen.mem[i].Keys);
    assert seen.mem[i][p.id].count == n;
    assert seen.pending(i, p.id) == n && seen.flushed(i, p.id) == s.flushed(i, p.id);
  }
}
