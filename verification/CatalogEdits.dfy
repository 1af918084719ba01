/** What each committed transaction changes for those who read the catalog, and what it
    leaves alone: other ids, other names, and every scope without the writer's org. */
module CatalogEdits {
  import opened Common
  import opened Patterns
  import opened CatalogTables
  import opened CatalogQueries
  import opened CatalogServices
  import opened CatalogCuration

  // ---- services --------------------------------------------------------------------------

  /** The grace test on a service as it is read. */
  predicate InGraceAt(s: ServiceInfo, grace: int, at: int) { grace > 0 && at < s.firstSeen + grace }

  /** The write org's row of a name decides what is read of it. */
  lemma ViewOfWriteRow(t: Tables, scope: seq<Org>, name: string)
    requires ValidScope(scope) && (scope[0], name) in t.services
    ensures var row := t.services[(scope[0], name)];
      ServiceView(t, scope, name)
      == if row.deleted then None else Some(ServiceInfo(scope[0], row.firstSeen, row.manual))
  {
  }

  /** Ending grace puts the service out of every window that is not longer than the clock is
      old, and changes nothing else of it; without a row in the write org nothing happens. */
  lemma EndGraceEnds(t: Tables, scope: seq<Org>, name: string, now: int, grace: int, at: int)
    requires ValidScope(scope) && ServiceView(t, scope, name).Some? && grace <= at
    ensures var u, was := CurateTables(t, scope, EndGrace(name), now), ServiceView(t, scope, name).value;
      var v := ServiceView(u, scope, name);
      if (scope[0], name) in t.services then v.Some? && v.value.manual == was.manual && !InGraceAt(v.value, grace, at)
      else u == t
  {
    var u := CurateTables(t, scope, EndGrace(name), now);
    if (scope[0], name) in t.services {
      ViewOfWriteRow(t, scope, name);
      ViewOfWriteRow(u, scope, name);
    }
  }

  /** Restarting grace opens a window at the edit's own time. */
  lemma RestartGraceRestarts(t: Tables, scope: seq<Org>, name: string, now: int, grace: int, at: int)
    requires ValidScope(scope) && ServiceView(t, scope, name).Some?
    ensures var u, was := CurateTables(t, scope, RestartGrace(name), now), ServiceView(t, scope, name).value;
      var v := ServiceView(u, scope, name);
      if (scope[0], name) in t.services then
        v.Some? && v.value.manual == was.manual && (InGraceAt(v.value, grace, at) <==> grace > 0 && at < now + grace)
      else u == t
  {
    var u := CurateTables(t, scope, RestartGrace(name), now);
    if (scope[0], name) in t.services {
      ViewOfWriteRow(t, scope, name);
      ViewOfWriteRow(u, scope, name);
    }
  }

  /** Deleting a service that is read hides it exactly when the write org holds its row. */
  lemma DeleteServiceHidesIff(t: Tables, scope: seq<Org>, name: string, now: int)
    requires ValidScope(scope) && ServiceView(t, scope, name).Some?
    ensures ServiceView(CurateTables(t, scope, DeleteService(name), now), scope, name).None?
        <==> (scope[0], name) in t.services
    ensures (scope[0], name) in t.services ==>
      ServiceSuppressed(CurateTables(t, scope, DeleteService(name), now), scope, name)
  {
    if (scope[0], name) in t.services { ViewOfWriteRow(CurateTables(t, scope, DeleteService(name), now), scope, name); }
  }

  /** A created service is read as manual and anchored at the edit, whatever was there. */
  lemma CreateServiceShows(t: Tables, scope: seq<Org>, name: string, now: int)
    requires ValidScope(scope)
    ensures ServiceView(CurateTables(t, scope, CreateService(name), now), scope, name)
        == Some(ServiceInfo(scope[0], now, true))
  {
    ViewOfWriteRow(CurateTables(t, scope, CreateService(name), now), scope, name);
  }

  /** A name no org of the scope knew, or that the writer's own reset had hidden, is read after
      a Persist with the anchor and origin it carries. */
  lemma PersistSetsNewService(t: Tables, w: Writer, ps: map<Id, Pattern>, ss: map<string, ServiceInfo>, now: int,
                              name: string)
    requires ValidScope(w.scope) && name in ss
    requires var c := ChosenService(t, w.scope, name); c.None? || (c.value.0 == w.scope[0] && c.value.1.resetShadow)
    ensures ServiceView(PersistTables(t, w, ps, ss, now), w.scope, name)
         == Some(ServiceInfo(w.scope[0], if ss[name].firstSeen == ZERO_TIME then now else ss[name].firstSeen,
                             ss[name].manual))
  {
    PersistedService(t, w, ps, ss, now, name);
  }

  // ---- roots -----------------------------------------------------------------------------

  lemma RowFrom(t: Tables, scope: seq<Org>, id: Id, c: (Org, Root), rows: map<int, LogRow>)
    requires ChosenRoot(t, scope, id) == Some(c) && ChosenLogs(t, scope, id) == rows
    ensures SnapshotRow(t, scope, id) == if !c.1.deleted && rows.Keys != {} then Some(FleetRow(id, c, rows)) else None
  {
  }

  lemma FleetRecurated(id: Id, o: Org, r: Root, s: Root, rows: map<int, LogRow>)
    requires rows.Keys != {}
    ensures FleetRow(id, (o, s), rows) == Recurated(FleetRow(id, (o, r), rows), s)
  {
  }

  /** A reported pattern under another root of the same org. */
  function Recurated(p: Pattern, r: Root): Pattern { p.(verdict := r.verdict, service := r.service, tags := r.tags) }

  lemma RootChanged(t: Tables, u: Tables, scope: seq<Org>, id: Id, r: Root)
    requires ValidScope(scope) && (scope[0], id) in t.roots && u == t.(roots := t.roots[(scope[0], id) := r])
    requires r.resetAt == t.roots[(scope[0], id)].resetAt
    ensures ChosenRoot(u, scope, id) == Some((scope[0], r)) && ChosenLogs(u, scope, id) == ChosenLogs(t, scope, id)
  {
    forall i: int ensures RankedLog(u, scope, id, i) == RankedLog(t, scope, id, i) {
      assert LogOrgs(u, id, i) == LogOrgs(t, id, i);
    }
    SameResetSameLogs(t, u, scope, id);
  }

  /** Changing the write org's root of a reported id, its reset boundary apart, changes what
      is reported of its curated columns and nothing else. */
  lemma RootUpdated(t: Tables, u: Tables, scope: seq<Org>, id: Id, r: Root, p: Pattern)
    requires ValidScope(scope) && (scope[0], id) in t.roots && u == t.(roots := t.roots[(scope[0], id) := r])
    requires r.resetAt == t.roots[(scope[0], id)].resetAt && !r.deleted && SnapshotRow(t, scope, id) == Some(p)
    ensures SnapshotRow(u, scope, id) == Some(Recurated(p, r))
    ensures var was := t.roots[(scope[0], id)]; p == Recurated(p, was)
  {
    var was, rows := t.roots[(scope[0], id)], ChosenLogs(t, scope, id);
    RootChanged(t, u, scope, id, r);
    RowFrom(t, scope, id, (scope[0], was), rows);
    RowFrom(u, scope, id, (scope[0], r), rows);
    FleetRecurated(id, scope[0], was, r, rows);
    FleetRecurated(id, scope[0], was, was, rows);
  }

  /** A re-point changes the reported service exactly when the write org holds the root. */
  lemma RepointMoves(t: Tables, scope: seq<Org>, id: Id, service: string, now: int, p: Pattern)
    requires ValidScope(scope) && SnapshotRow(t, scope, id) == Some(p)
    ensures var u := CurateTables(t, scope, Repoint(id, service), now);
      if (scope[0], id) in t.roots then SnapshotRow(u, scope, id) == Some(p.(service := service)) else u == t
  {
    if (scope[0], id) in t.roots {
      var r := t.roots[(scope[0], id)].(service := service);
      RepointedRoot(t, scope, id, service, now, r);
      RootUpdated(t, CurateTables(t, scope, Repoint(id, service), now), scope, id, r, p);
      RecuratedService(p, t.roots[(scope[0], id)], r, service);
    } else {
      RepointMissed(t, scope, id, service, now);
    }
  }

  lemma RepointMissed(t: Tables, scope: seq<Org>, id: Id, service: string, now: int)
    requires ValidScope(scope) && (scope[0], id) !in t.roots
    ensures CurateTables(t, scope, Repoint(id, service), now) == t
  {
  }

  lemma RecuratedService(p: Pattern, was: Root, r: Root, service: string)
    requires p == Recurated(p, was) && r == was.(service := service)
    ensures Recurated(p, r) == p.(service := service)
  {
  }

  lemma RepointedRoot(t: Tables, scope: seq<Org>, id: Id, service: string, now: int, r: Root)
    requires ValidScope(scope) && (scope[0], id) in t.roots && r == t.roots[(scope[0], id)].(service := service)
    ensures CurateTables(t, scope, Repoint(id, service), now) == t.(roots := t.roots[(scope[0], id) := r])
  {
  }

  /** A label sets the verdict and the tags it names, under the same condition. */
  lemma LabelSets(t: Tables, scope: seq<Org>, id: Id, verdict: Option<string>, tags: Option<seq<string>>, now: int,
                  p: Pattern)
    requires ValidScope(scope) && SnapshotRow(t, scope, id) == Some(p)
    ensures var u := CurateTables(t, scope, Label(id, verdict, tags), now);
      if (scope[0], id) in t.roots then
        SnapshotRow(u, scope, id) == Some(p.(verdict := if verdict.Some? then verdict.value else p.verdict,
                                             tags := if tags.Some? then tags.value else p.tags))
      else u == t
  {
    if (scope[0], id) in t.roots {
      var was := t.roots[(scope[0], id)];
      var r := was.(verdict := if verdict.Some? then verdict.value else was.verdict,
                    tags := if tags.Some? then tags.value else was.tags);
      LabelledRoot(t, scope, id, verdict, tags, now, r);
      RootUpdated(t, CurateTables(t, scope, Label(id, verdict, tags), now), scope, id, r, p);
    }
  }

  lemma LabelledRoot(t: Tables, scope: seq<Org>, id: Id, verdict: Option<string>, tags: Option<seq<string>>, now: int,
                     r: Root)
    requires ValidScope(scope) && (scope[0], id) in t.roots
    requires var was := t.roots[(scope[0], id)];
      r == was.(verdict := if verdict.Some? then verdict.value else was.verdict,
                tags := if tags.Some? then tags.value else was.tags)
    ensures CurateTables(t, scope, Label(id, verdict, tags), now) == t.(roots := t.roots[(scope[0], id) := r])
  {
    assert t.roots[(scope[0], id) := t.roots[(scope[0], id)]] == t.roots;
  }

  /** A mark-known sets the verdict where the write org holds the root; where a lower org does,
      a bare root goes over it, and the service and tags reported before are lost. */
  lemma MarkKnownSets(t: Tables, scope: seq<Org>, id: Id, now: int, p: Pattern)
    requires ValidScope(scope) && SnapshotRow(t, scope, id) == Some(p)
    ensures var u := CurateTables(t, scope, MarkKnown(id), now);
      if (scope[0], id) in t.roots then SnapshotRow(u, scope, id) == Some(p.(verdict := KNOWN))
      else var row := SnapshotRow(u, scope, id);
           row.Some? && row.value.verdict == KNOWN && row.value.service == "" && row.value.tags == []
  {
    var u := CurateTables(t, scope, MarkKnown(id), now);
    if (scope[0], id) in t.roots {
      var r := t.roots[(scope[0], id)].(verdict := KNOWN);
      MarkedRoot(t, scope, id, now, r);
      RootUpdated(t, u, scope, id, r, p);
    } else {
      BareRootShows(t, u, scope, id);
    }
  }

  lemma MarkedRoot(t: Tables, scope: seq<Org>, id: Id, now: int, r: Root)
    requires ValidScope(scope) && (scope[0], id) in t.roots && r == t.roots[(scope[0], id)].(verdict := KNOWN)
    ensures CurateTables(t, scope, MarkKnown(id), now) == t.(roots := t.roots[(scope[0], id) := r])
  {
    if t.roots[(scope[0], id)].verdict == KNOWN { assert t.roots[(scope[0], id) := r] == t.roots; }
  }

  lemma BareRootShows(t: Tables, u: Tables, scope: seq<Org>, id: Id)
    requires ValidScope(scope) && u == t.(roots := t.roots[(scope[0], id) := Root("", KNOWN, [], false, false, None)])
    requires SnapshotRow(t, scope, id).Some?
    ensures var row := SnapshotRow(u, scope, id);
      row.Some? && row.value.verdict == KNOWN && row.value.service == "" && row.value.tags == []
  {
    BareRootCounts(t, u, scope, id, MinKey(ChosenLogs(t, scope, id).Keys));
    BareFleet(u, scope, id, (scope[0], Root("", KNOWN, [], false, false, None)), ChosenLogs(u, scope, id));
  }

  lemma BareFleet(u: Tables, scope: seq<Org>, id: Id, c: (Org, Root), rows: map<int, LogRow>)
    requires ChosenRoot(u, scope, id) == Some(c) && ChosenLogs(u, scope, id) == rows && rows.Keys != {} && !c.1.deleted
    ensures var row := SnapshotRow(u, scope, id);
      row.Some? && row.value.verdict == c.1.verdict && row.value.service == c.1.service && row.value.tags == c.1.tags
  {
    RowFrom(u, scope, id, c, rows);
  }

  lemma BareRootCounts(t: Tables, u: Tables, scope: seq<Org>, id: Id, i: int)
    requires ValidScope(scope) && u == t.(roots := t.roots[(scope[0], id) := Root("", KNOWN, [], false, false, None)])
    requires i in ChosenLogs(t, scope, id)
    ensures i in ChosenLogs(u, scope, id)
  {
    assert LogOrgs(u, id, i) == LogOrgs(t, id, i);
  }

  /** A Delete that reaches a root leaves a deliberate tombstone, a reset shadow's included, so
      no Persist revives it. */
  lemma DeleteIsDeliberate(t: Tables, scope: seq<Org>, id: Id, now: int)
    requires ValidScope(scope) && (scope[0], id) in t.roots
    ensures Tombstoned(CurateTables(t, scope, Delete(id), now), scope, id)
  {
    assert (scope[0], id) in CurateTables(t, scope, Delete(id), now).roots;
  }

  /** A Persist re-points the root it writes to a real service; to any, when the root is new. */
  lemma PersistSetsService(t: Tables, w: Writer, ps: map<Id, Pattern>, ss: map<string, ServiceInfo>, now: int, id: Id)
    requires ValidScope(w.scope) && id in ps
    ensures var c := ChosenRoot(PersistTables(t, w, ps, ss, now), w.scope, id);
      c.Some? && c.value.0 == w.scope[0]
      && c.value.1.service == if RealService(ps[id].service) || (w.scope[0], id) !in t.roots then ps[id].service
                              else t.roots[(w.scope[0], id)].service
  {
    PersistedRoot(t, w, ps, ss, now, id);
  }

  // ---- learned rows over runs ---------------------------------------------------------------

  lemma StepKeepsFirstSeen(t: Tables, s: Step, k: LogKey)
    requires ValidStep(s) && k in t.logs && !ResetsOrg(s, k.0)
    ensures k in Apply(t, s).logs && Apply(t, s).logs[k].firstSeen == t.logs[k].firstSeen
  {
    if s.Curate? && !s.edit.ResetPatterns? { EditKeepsRoot(t, s.scope, s.edit, s.now, (k.0, k.1)); }
  }

  /** A partition keeps the first sighting of its first Persist through every run without a
      reset of its org. */
  lemma {:induction false} FirstSeenKept(t: Tables, steps: seq<Step>, now: int, k: LogKey)
    requires ValidRun(steps, now) && k in t.logs && forall s <- steps :: !ResetsOrg(s, k.0)
    ensures k in Run(t, steps, now).logs && Run(t, steps, now).logs[k].firstSeen == t.logs[k].firstSeen
    decreases |steps|
  {
    if steps != [] {
      assert steps[0] in steps && forall s <- steps[1..] :: s in steps;
      StepKeepsFirstSeen(t, steps[0], k);
      FirstSeenKept(Apply(t, steps[0]), steps[1..], steps[0].now, k);
    }
  }

  lemma PersistSetsFirstSeen(t: Tables, w: Writer, ps: map<Id, Pattern>, ss: map<string, ServiceInfo>, now: int, id: Id)
    requires ValidScope(w.scope) && id in ps && (w.scope[0], id, w.instance) !in t.logs
    ensures var k, u := (w.scope[0], id, w.instance), PersistTables(t, w, ps, ss, now);
      k in u.logs && u.logs[k].firstSeen == (if ps[id].firstSeen == ZERO_TIME then now else ps[id].firstSeen)
      && u.logs[k].persistedAt == now
  {
    assert (w.scope[0], id, w.instance) in LogKeysOf(w, ps.Keys);
  }

  // ---- what is left alone -------------------------------------------------------------------

  predicate EditsId(edit: Edit, id: Id)
  {
    (edit.Label? || edit.MarkKnown? || edit.Repoint? || edit.Delete?) && edit.id == id
  }

  predicate EditsName(edit: Edit, name: string)
  {
    ((edit.EndGrace? || edit.RestartGrace? || edit.CreateService? || edit.RenameService? || edit.DeleteService?)
     && edit.name == name) || (edit.RenameService? && edit.newName == name)
  }

  lemma RootEditAt(t: Tables, scope: seq<Org>, edit: Edit, now: int, k: RootKey)
    requires ValidScope(scope) && !edit.ResetPatterns? && !EditsId(edit, k.1)
    ensures var u := CurateTables(t, scope, edit, now);
      u.logs == t.logs && (k in u.roots <==> k in t.roots) && (k in t.roots ==> u.roots[k] == t.roots[k])
  {
    if EditsServices(edit) { ServiceEditKeepsRoots(t, scope, edit, now); }
  }

  /** An edit of one id changes what no reader is told of another. */
  lemma EditKeepsOtherIds(t: Tables, scope: seq<Org>, edit: Edit, now: int, reader: seq<Org>, id: Id)
    requires ValidScope(scope) && !edit.ResetPatterns? && !EditsId(edit, id)
    ensures SnapshotRow(CurateTables(t, scope, edit, now), reader, id) == SnapshotRow(t, reader, id)
  {
    var u := CurateTables(t, scope, edit, now);
    forall o: Org ensures (o, id) in u.roots <==> (o, id) in t.roots
                  ensures (o, id) in t.roots ==> u.roots[(o, id)] == t.roots[(o, id)] {
      RootEditAt(t, scope, edit, now, (o, id));
    }
    RootEditAt(t, scope, edit, now, ("", id));
    SameReads(t, u, reader, id);
  }

  /** Nor does an edit change what is told of a service it does not name. */
  lemma EditKeepsOtherNames(t: Tables, scope: seq<Org>, edit: Edit, now: int, reader: seq<Org>, name: string)
    requires ValidScope(scope) && !edit.ResetServices? && !EditsName(edit, name)
    ensures ServiceView(CurateTables(t, scope, edit, now), reader, name) == ServiceView(t, reader, name)
  {
    var u := CurateTables(t, scope, edit, now);
    forall o: Org ensures (o, name) in u.services <==> (o, name) in t.services
                  ensures (o, name) in t.services ==> u.services[(o, name)] == t.services[(o, name)] {
      ServiceEditAt(t, scope, edit, now, (o, name));
    }
    OtherServicesKept(t, u, reader, name);
  }

  lemma ServiceEditAt(t: Tables, scope: seq<Org>, edit: Edit, now: int, k: RootKey)
    requires ValidScope(scope) && !edit.ResetServices? && !EditsName(edit, k.1)
    ensures var u := CurateTables(t, scope, edit, now);
      (k in u.services <==> k in t.services) && (k in t.services ==> u.services[k] == t.services[k])
  {
  }

  // ---- lower orgs after a reset ----------------------------------------------------------------

  /** A partition that a lower org of the scope persists counts under the write org's root
      exactly when it does so after that root's reset, if it had one. */
  lemma LowerPersistCountsIff(t: Tables, scope: seq<Org>, w: Writer, ps: map<Id, Pattern>, ss: map<string, ServiceInfo>,
                              now: int, id: Id)
    requires ValidScope(scope) && (scope[0], id) in t.roots && ValidScope(w.scope) && id in ps
    requires w.scope[0] in scope && w.scope[0] != scope[0]
    requires forall o <- scope :: o != w.scope[0] ==> (o, id, w.instance) !in t.logs
    ensures var root := t.roots[(scope[0], id)];
      w.instance in ChosenLogs(PersistTables(t, w, ps, ss, now), scope, id) <==>
        root.resetAt.None? || now > root.resetAt.value
  {
    var u, k := PersistTables(t, w, ps, ss, now), (w.scope[0], id, w.instance);
    PersistWritesOwnOrg(t, w, ps, ss, now, scope[0]);
    assert k in LogKeysOf(w, ps.Keys);
    assert k in u.logs && u.logs[k].persistedAt == now;
    forall o | o in scope && o != w.scope[0] ensures (o, id, w.instance) !in u.logs {
      PersistWritesOwnOrg(t, w, ps, ss, now, o);
    }
  }

  // ---- isolation ----------------------------------------------------------------------------

  /** The rows of an org are the same in both. */
  ghost predicate SameOrg(t: Tables, u: Tables, o: Org)
  {
    && (forall id: string :: (o, id) in u.roots <==> (o, id) in t.roots)
    && (forall id: string :: (o, id) in t.roots ==> u.roots[(o, id)] == t.roots[(o, id)])
    && (forall id: string, i: int :: (o, id, i) in u.logs <==> (o, id, i) in t.logs)
    && (forall id: string, i: int :: (o, id, i) in t.logs ==> u.logs[(o, id, i)] == t.logs[(o, id, i)])
    && (forall name: string :: (o, name) in u.services <==> (o, name) in t.services)
    && (forall name: string :: (o, name) in t.services ==> u.services[(o, name)] == t.services[(o, name)])
  }

  lemma PersistWritesOwnOrg(t: Tables, w: Writer, ps: map<Id, Pattern>, ss: map<string, ServiceInfo>, now: int, o: Org)
    requires ValidScope(w.scope) && o != w.scope[0]
    ensures SameOrg(t, PersistTables(t, w, ps, ss, now), o)
  {
  }

  lemma ResetWritesOwnOrg(t: Tables, scope: seq<Org>, now: int, o: Org)
    requires ValidScope(scope) && o != scope[0]
    ensures SameOrg(t, ResetPatternTables(t, scope, now), o) && SameOrg(t, ResetServiceTables(t, scope, now), o)
  {
  }

  lemma EditWritesOwnOrg(t: Tables, scope: seq<Org>, edit: Edit, now: int, o: Org)
    requires ValidScope(scope) && o != scope[0]
    ensures SameOrg(t, CurateTables(t, scope, edit, now), o)
  {
    if edit.ResetPatterns? || edit.ResetServices? {
      ResetWritesOwnOrg(t, scope, now, o);
    } else if EditsServices(edit) {
      ServiceEditKeepsRoots(t, scope, edit, now);
      ServiceEditOwnOrg(t, scope, edit, now, o);
    } else {
      RootEditOwnOrg(t, scope, edit, now, o);
    }
  }

  lemma ServiceEditOwnOrg(t: Tables, scope: seq<Org>, edit: Edit, now: int, o: Org)
    requires ValidScope(scope) && o != scope[0] && EditsServices(edit) && !edit.ResetServices?
    ensures var u := CurateTables(t, scope, edit, now);
      && (forall name: string :: (o, name) in u.services <==> (o, name) in t.services)
      && (forall name: string :: (o, name) in t.services ==> u.services[(o, name)] == t.services[(o, name)])
  {
  }

  lemma RootEditOwnOrg(t: Tables, scope: seq<Org>, edit: Edit, now: int, o: Org)
    requires ValidScope(scope) && o != scope[0] && !EditsServices(edit) && !edit.ResetPatterns?
    ensures SameOrg(t, CurateTables(t, scope, edit, now), o)
  {
  }

  lemma {:induction false} FirstInSame(scope: seq<Org>, a: set<Org>, b: set<Org>)
    requires forall o <- scope :: o in a <==> o in b
    ensures FirstIn(scope, a) == FirstIn(scope, b)
  {
    if scope != [] {
      assert scope[0] in scope && forall o <- scope[1..] :: o in scope;
      FirstInSame(scope[1..], a, b);
    }
  }

  /** What a reader is told depends on the rows of its scope alone. */
  lemma ReadsOwnScope(t: Tables, u: Tables, reader: seq<Org>, id: Id, name: string)
    requires forall o <- reader :: SameOrg(t, u, o)
    ensures ChosenRoot(u, reader, id) == ChosenRoot(t, reader, id)
        && ServiceView(u, reader, name) == ServiceView(t, reader, name)
    ensures forall i: int :: RankedLog(u, reader, id, i) == RankedLog(t, reader, id, i)
    ensures SnapshotRow(u, reader, id) == SnapshotRow(t, reader, id)
  {
    RootsRead(t, u, reader, id);
    forall i: int ensures RankedLog(u, reader, id, i) == RankedLog(t, reader, id, i) { LogsRead(t, u, reader, id, i); }
    ServicesRead(t, u, reader, name);
    SameRankedSameRow(t, u, reader, id);
  }

  lemma RootsRead(t: Tables, u: Tables, reader: seq<Org>, id: Id)
    requires forall o <- reader :: SameOrg(t, u, o)
    ensures ChosenRoot(u, reader, id) == ChosenRoot(t, reader, id)
  {
    forall o | o in reader ensures o in RootOrgs(u, id) <==> o in RootOrgs(t, id) {
      assert SameOrg(t, u, o);
      if (o, id) in t.roots { assert (o, id).0 in RootOrgs(t, id) && (o, id).0 in RootOrgs(u, id); }
    }
    FirstInSame(reader, RootOrgs(u, id), RootOrgs(t, id));
    var c := ChosenRoot(t, reader, id);
    if c.Some? { assert SameOrg(t, u, c.value.0); }
  }

  lemma LogsRead(t: Tables, u: Tables, reader: seq<Org>, id: Id, i: int)
    requires forall o <- reader :: SameOrg(t, u, o)
    ensures RankedLog(u, reader, id, i) == RankedLog(t, reader, id, i)
  {
    forall o | o in reader ensures o in LogOrgs(u, id, i) <==> o in LogOrgs(t, id, i) {
      assert SameOrg(t, u, o);
      if (o, id, i) in t.logs { assert (o, id, i).0 in LogOrgs(t, id, i) && (o, id, i).0 in LogOrgs(u, id, i); }
    }
    FirstInSame(reader, LogOrgs(u, id, i), LogOrgs(t, id, i));
    var r := RankedLog(t, reader, id, i);
    if r.Some? { assert SameOrg(t, u, r.value.0); }
  }

  lemma ServicesRead(t: Tables, u: Tables, reader: seq<Org>, name: string)
    requires forall o <- reader :: SameOrg(t, u, o)
    ensures ServiceView(u, reader, name) == ServiceView(t, reader, name)
  {
    forall o | o in reader ensures o in ServiceOrgs(u, name) <==> o in ServiceOrgs(t, name) {
      assert SameOrg(t, u, o);
      if (o, name) in t.services { assert (o, name).0 in ServiceOrgs(t, name) && (o, name).0 in ServiceOrgs(u, name); }
    }
    FirstInSame(reader, ServiceOrgs(u, name), ServiceOrgs(t, name));
    var c := ChosenService(t, reader, name);
    if c.Some? { assert SameOrg(t, u, c.value.0); }
  }

  /** No run of transactions by stores of other write orgs - Persists, edits or resets - changes
      what a scope is told of any pattern or service. */
  lemma {:induction false} OtherTenantsInvisible(t: Tables, steps: seq<Step>, now: int, reader: seq<Org>, id: Id,
                                                 name: string)
    requires ValidRun(steps, now) && forall s <- steps :: StepScope(s) != [] && StepScope(s)[0] !in reader
    ensures SnapshotRow(Run(t, steps, now), reader, id) == SnapshotRow(t, reader, id)
    ensures ServiceView(Run(t, steps, now), reader, name) == ServiceView(t, reader, name)
    decreases |steps|
  {
    if steps != [] {
      var s := steps[0];
      assert s in steps && forall x <- steps[1..] :: x in steps;
      var u := Apply(t, s);
      forall o | o in reader ensures SameOrg(t, u, o) {
        match s
        case Persist(w, ps, ss, n) => PersistWritesOwnOrg(t, w, ps, ss, n, o);
        case Curate(scope, edit, n) => EditWritesOwnOrg(t, scope, edit, n, o);
      }
      ReadsOwnScope(t, u, reader, id, name);
      OtherTenantsInvisible(u, steps[1..], s.now, reader, id, name);
    }
  }
}
