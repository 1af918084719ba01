/** The typed catalog tables and the SQL statements that change them.

    `vs_patterns` holds one curated root per (org, id), `vs_logs` one learned row
    per (org, id, instance), `vs_services` one row per (org, name). Each
    statement is a function from tables to tables; `now` is the transaction's
    NOW(). A nullable text column is represented by "", which is what every read
    COALESCEs it to. Only kind = 'log' roots are represented. */
module CatalogTables {
  import opened Common
  import opened Patterns
  import opened Stats

  type Org = string
  type Id = string
  type RootKey = (Org, Id)
  type LogKey = (Org, Id, int)

  datatype Root = Root(service: string, verdict: string, tags: seq<string>,
                       deleted: bool, resetShadow: bool, resetAt: Option<int>)

  datatype LogRow = LogRow(
    template: string, source: string, ruleName: string, count: int,
    baselineFrequency: real, baselineVariance: real, baselineAvg: real,
    spikeBaselineMode: string, seasonal: seq<EWMA>, samples: seq<string>,
    firstSeen: int, lastSeen: int, persistedAt: int)

  datatype ServiceRow = ServiceRow(manual: bool, firstSeen: int, deleted: bool, resetShadow: bool)

  datatype Tables = Tables(
    roots: map<RootKey, Root>, logs: map<LogKey, LogRow>, services: map<RootKey, ServiceRow>)

  const EMPTY_TABLES := Tables(map[], map[], map[])

  /** A store's view of the fleet: the ordered read scope (the write org first)
      and the ordinal of the partition it writes. */
  datatype Writer = Writer(scope: seq<Org>, instance: int)

  predicate ValidScope(scope: seq<Org>) { scope != [] }

  // ---- precedence --------------------------------------------------------------

  /** The organization a `ROW_NUMBER() ... ORDER BY array_position` ranks first. */
  function FirstIn(scope: seq<Org>, present: set<Org>): (r: Option<Org>)
    ensures r.None? <==> forall o :: o in scope ==> o !in present
    ensures r.Some? ==> r.value in scope && r.value in present
    ensures r.Some? ==>
              exists i :: 0 <= i < |scope| && scope[i] == r.value && forall j :: 0 <= j < i ==> scope[j] !in present
  {
    if scope == [] then None
    else if scope[0] in present then Some(scope[0])
    else
      var r := FirstIn(scope[1..], present);
      assert forall o :: o in scope <==> o == scope[0] || o in scope[1..];
      assert r.Some? ==>
        exists i :: 0 <= i < |scope| && scope[i] == r.value && forall j :: 0 <= j < i ==> scope[j] !in present by {
        if r.Some? {
          var i :| 0 <= i < |scope[1..]| && scope[1..][i] == r.value
                   && forall j :: 0 <= j < i ==> scope[1..][j] !in present;
          assert scope[i + 1] == r.value;
          forall j | 0 <= j < i + 1 ensures scope[j] !in present {
            if j > 0 { assert scope[1..][j - 1] == scope[j]; }
          }
        }
      }
      r
  }

  function RootOrgs(t: Tables, id: Id): set<Org>
  {
    set k <- t.roots.Keys | k.1 == id :: k.0
  }

  /** `ranked_patterns ... WHERE precedence = 1`, before the deleted/shadow filter. */
  function ChosenRoot(t: Tables, scope: seq<Org>, id: Id): (r: Option<(Org, Root)>)
    ensures r.Some? ==> r.value.0 in scope && (r.value.0, id) in t.roots && r.value.1 == t.roots[(r.value.0, id)]
    ensures r.None? <==> forall o :: o in scope ==> (o, id) !in t.roots
    ensures ValidScope(scope) && (scope[0], id) in t.roots ==> r == Some((scope[0], t.roots[(scope[0], id)]))
  {
    assert forall o :: o in RootOrgs(t, id) <==> (o, id) in t.roots by {
      forall o ensures o in RootOrgs(t, id) <==> (o, id) in t.roots {
        if (o, id) in t.roots { assert (o, id).0 in RootOrgs(t, id); }
      }
    }
    match FirstIn(scope, RootOrgs(t, id))
    case None => None
    case Some(o) => Some((o, t.roots[(o, id)]))
  }

  // ---- Persist -------------------------------------------------------------------

  /** sqlCatalogUpsertRoot for one id. A first row in the write org copies the
      highest-precedence curated root in scope; an existing one takes a real
      service and is revived when it is a reset shadow. */
  function RootAfterUpsert(t: Tables, scope: seq<Org>, id: Id, service: string): Root
    requires ValidScope(scope)
  {
    var key := (scope[0], id);
    if key in t.roots then
      var r := t.roots[key];
      r.(service := if RealService(service) then service else r.service,
         deleted := if r.resetShadow then false else r.deleted,
         resetShadow := false)
    else
      match ChosenRoot(t, scope, id)
      case None => Root(service, "", [], false, false, None)
      case Some(c) => Root(service, c.1.verdict, c.1.tags, c.1.deleted, false, None)
  }

  function TimeOrNow(ts: int, now: int): int { if ts == ZERO_TIME then now else ts }

  /** sqlCatalogUpsertLog for one partition row; the first sighting is kept on conflict. */
  function LogAfterUpsert(prior: Option<LogRow>, p: Pattern, now: int): LogRow
  {
    LogRow(p.template, p.source, p.ruleName, p.count, p.baselineFrequency, p.baselineVariance,
           p.baselineAvg, p.spikeBaselineMode, p.seasonal, p.samples,
           (match prior case Some(r) => r.firstSeen case None => TimeOrNow(p.firstSeen, now)),
           TimeOrNow(p.lastSeen, now), now)
  }

  function LogAt(t: Tables, key: LogKey): Option<LogRow>
  {
    if key in t.logs then Some(t.logs[key]) else None
  }

  function ServiceOrgs(t: Tables, name: string): set<Org>
  {
    set k <- t.services.Keys | k.1 == name :: k.0
  }

  function ChosenService(t: Tables, scope: seq<Org>, name: string): (r: Option<(Org, ServiceRow)>)
    ensures r.Some? ==>
      r.value.0 in scope && (r.value.0, name) in t.services && r.value.1 == t.services[(r.value.0, name)]
    ensures r.None? <==> forall o :: o in scope ==> (o, name) !in t.services
    ensures ValidScope(scope) && (scope[0], name) in t.services ==> r == Some((scope[0], t.services[(scope[0], name)]))
  {
    assert forall o :: o in ServiceOrgs(t, name) <==> (o, name) in t.services by {
      forall o ensures o in ServiceOrgs(t, name) <==> (o, name) in t.services {
        if (o, name) in t.services { assert (o, name).0 in ServiceOrgs(t, name); }
      }
    }
    match FirstIn(scope, ServiceOrgs(t, name))
    case None => None
    case Some(o) => Some((o, t.services[(o, name)]))
  }

  /** sqlCatalogInsertServiceIfAbsent: only a reset shadow is overwritten on conflict. */
  function ServiceAfterUpsert(t: Tables, scope: seq<Org>, name: string, info: ServiceInfo, now: int): ServiceRow
    requires ValidScope(scope)
  {
    var key := (scope[0], name);
    var seen := TimeOrNow(info.firstSeen, now);
    if key in t.services then
      if t.services[key].resetShadow then ServiceRow(info.manual, seen, false, false) else t.services[key]
    else
      match ChosenService(t, scope, name)
      case None => ServiceRow(info.manual, seen, false, false)
      case Some(c) => ServiceRow(c.1.manual, c.1.firstSeen, c.1.deleted, false)
  }

  function UpsertRoot(t: Tables, scope: seq<Org>, id: Id, service: string): Tables
    requires ValidScope(scope)
  {
    t.(roots := t.roots[(scope[0], id) := RootAfterUpsert(t, scope, id, service)])
  }

  function UpsertLog(t: Tables, w: Writer, id: Id, p: Pattern, now: int): Tables
    requires ValidScope(w.scope)
  {
    var key := (w.scope[0], id, w.instance);
    t.(logs := t.logs[key := LogAfterUpsert(LogAt(t, key), p, now)])
  }

  function UpsertService(t: Tables, scope: seq<Org>, name: string, info: ServiceInfo, now: int): Tables
    requires ValidScope(scope)
  {
    t.(services := t.services[(scope[0], name) := ServiceAfterUpsert(t, scope, name, info, now)])
  }

  function KeysOf(o: Org, names: set<string>): (r: set<RootKey>)
    ensures forall k :: k in r <==> k.0 == o && k.1 in names
  {
    set name <- names :: (o, name)
  }

  function LogKeysOf(w: Writer, ids: set<Id>): (r: set<LogKey>)
    requires ValidScope(w.scope)
    ensures forall k :: k in r <==> k.0 == w.scope[0] && k.1 in ids && k.2 == w.instance
  {
    set id <- ids :: (w.scope[0], id, w.instance)
  }

  function PersistRoots(t: Tables, scope: seq<Org>, ps: map<Id, Pattern>): map<RootKey, Root>
    requires ValidScope(scope)
  {
    map k <- t.roots.Keys + KeysOf(scope[0], ps.Keys) ::
      if k.0 == scope[0] && k.1 in ps then RootAfterUpsert(t, scope, k.1, ps[k.1].service) else t.roots[k]
  }

  function PersistLogs(t: Tables, w: Writer, ps: map<Id, Pattern>, now: int): map<LogKey, LogRow>
    requires ValidScope(w.scope)
  {
    map k <- t.logs.Keys + LogKeysOf(w, ps.Keys) ::
      if k.0 == w.scope[0] && k.2 == w.instance && k.1 in ps then LogAfterUpsert(LogAt(t, k), ps[k.1], now)
      else t.logs[k]
  }

  function PersistServices(t: Tables, scope: seq<Org>, ss: map<string, ServiceInfo>, now: int): map<RootKey, ServiceRow>
    requires ValidScope(scope)
  {
    map k <- t.services.Keys + KeysOf(scope[0], ss.Keys) ::
      if k.0 == scope[0] && k.1 in ss then ServiceAfterUpsert(t, scope, k.1, ss[k.1], now) else t.services[k]
  }

  /** The tables after one committed Persist, key by key, so that no iteration
      order over the working set is built in. */
  function PersistTables(t: Tables, w: Writer, ps: map<Id, Pattern>, ss: map<string, ServiceInfo>,
                         now: int): (r: Tables)
    requires ValidScope(w.scope)
  {
    Tables(PersistRoots(t, w.scope, ps), PersistLogs(t, w, ps, now), PersistServices(t, w.scope, ss, now))
  }

  // ---- Curate --------------------------------------------------------------------

  datatype Edit =
    | Label(id: Id, verdict: Option<string>, tags: Option<seq<string>>)
    | MarkKnown(id: Id)
    | Repoint(id: Id, service: string)
    | Delete(id: Id)
    | EndGrace(name: string)
    | RestartGrace(name: string)
    | CreateService(name: string)
    | RenameService(name: string, newName: string)
    | DeleteService(name: string)
    | ResetPatterns
    | ResetServices

  /** An UPDATE of one root: no row, no effect. */
  function UpdateRoot(t: Tables, key: RootKey, f: Root -> Root): Tables
  {
    if key in t.roots then t.(roots := t.roots[key := f(t.roots[key])]) else t
  }

  function UpdateService(t: Tables, key: RootKey, f: ServiceRow -> ServiceRow): Tables
  {
    if key in t.services then t.(services := t.services[key := f(t.services[key])]) else t
  }

  function LabelVerdict(t: Tables, key: RootKey, verdict: Option<string>): Tables
  {
    if verdict.None? then t else UpdateRoot(t, key, (r: Root) => r.(verdict := verdict.value))
  }

  function LabelTags(t: Tables, key: RootKey, tags: Option<seq<string>>): Tables
  {
    if tags.None? then t else UpdateRoot(t, key, (r: Root) => r.(tags := tags.value))
  }

  /** sqlCurateMarkKnown: inserts a bare root when the id has none in the write org. */
  function MarkKnownRoot(t: Tables, key: RootKey): Tables
  {
    if key in t.roots then
      if t.roots[key].verdict == KNOWN then t else t.(roots := t.roots[key := t.roots[key].(verdict := KNOWN)])
    else
      t.(roots := t.roots[key := Root("", KNOWN, [], false, false, None)])
  }

  /** The ids a reset must shadow: those with a root in a lower-scope org. */
  function LegacyIds(t: Tables, scope: seq<Org>): set<Id>
    requires ValidScope(scope)
  {
    set k <- t.roots.Keys | k.0 in scope && k.0 != scope[0] :: k.1
  }

  /** resetPatternsInScope: delete the write org's roots (their learned rows go
      with them by the cascading foreign key), then shadow every legacy id. */
  function ResetPatternTables(t: Tables, scope: seq<Org>, now: int): Tables
    requires ValidScope(scope)
  {
    var o := scope[0];
    var kept := map k <- t.roots.Keys | k.0 != o :: t.roots[k];
    var shadows := map id <- LegacyIds(t, scope) :: (o, id) := Root("", "", [], true, true, Some(now));
    t.(roots := kept + shadows, logs := map k <- t.logs.Keys | k.0 != o :: t.logs[k])
  }

  function LegacyServices(t: Tables, scope: seq<Org>): set<string>
    requires ValidScope(scope)
  {
    set k <- t.services.Keys | k.0 in scope && k.0 != scope[0] :: k.1
  }

  function ResetServiceTables(t: Tables, scope: seq<Org>, now: int): Tables
    requires ValidScope(scope)
  {
    var o := scope[0];
    var kept := map k <- t.services.Keys | k.0 != o :: t.services[k];
    var shadows := map name <- LegacyServices(t, scope) :: (o, name) := ServiceRow(false, now, true, true);
    t.(services := kept + shadows)
  }

  /** renameService: a live old name is tombstoned and its grace anchor and manual
      flag move to the new name; a missing or deleted one is a no-op. */
  function RenameServiceTables(t: Tables, o: Org, name: string, newName: string): Tables
  {
    if (o, name) in t.services && !t.services[(o, name)].deleted then
      var moved := t.services[(o, name)];
      t.(services := t.services[(o, name) := moved.(deleted := true)]
                               [(o, newName) := ServiceRow(moved.manual, moved.firstSeen, false, false)])
    else t
  }

  /** The tables after one committed Curate. */
  function CurateTables(t: Tables, scope: seq<Org>, edit: Edit, now: int): Tables
    requires ValidScope(scope)
  {
    var o := scope[0];
    match edit
    case Label(id, verdict, tags) => LabelTags(LabelVerdict(t, (o, id), verdict), (o, id), tags)
    case MarkKnown(id) => MarkKnownRoot(t, (o, id))
    case Repoint(id, service) => UpdateRoot(t, (o, id), (r: Root) => r.(service := service))
    case Delete(id) => UpdateRoot(t, (o, id), (r: Root) => r.(deleted := true, resetShadow := false))
    case EndGrace(name) => UpdateService(t, (o, name), (s: ServiceRow) => s.(firstSeen := ZERO_TIME))
    case RestartGrace(name) => UpdateService(t, (o, name), (s: ServiceRow) => s.(firstSeen := now))
    case CreateService(name) => t.(services := t.services[(o, name) := ServiceRow(true, now, false, false)])
    case RenameService(name, newName) => RenameServiceTables(t, o, name, newName)
    case DeleteService(name) => UpdateService(t, (o, name),
        (s: ServiceRow) => s.(deleted := true, resetShadow := false))
    case ResetPatterns => ResetPatternTables(t, scope, now)
    case ResetServices => ResetServiceTables(t, scope, now)
  }

  predicate EditsServices(edit: Edit)
  {
    edit.EndGrace? || edit.RestartGrace? || edit.CreateService? || edit.RenameService? || edit.DeleteService?
      || edit.ResetServices?
  }

  lemma ServiceEditKeepsRoots(t: Tables, scope: seq<Org>, edit: Edit, now: int)
    requires ValidScope(scope) && EditsServices(edit)
    ensures CurateTables(t, scope, edit, now).roots == t.roots && CurateTables(t, scope, edit, now).logs == t.logs
  {
  }

  /** An edit that is no pattern reset keeps the learned rows, every root with its reset
      boundary, and the roots of other orgs as they are; it adds at most MarkKnown's. */
  lemma EditKeepsRoot(t: Tables, scope: seq<Org>, edit: Edit, now: int, k: RootKey)
    requires ValidScope(scope) && !edit.ResetPatterns?
    ensures var u := CurateTables(t, scope, edit, now);
      && u.logs == t.logs
      && (k in t.roots ==> k in u.roots && u.roots[k].resetAt == t.roots[k].resetAt)
      && (k in t.roots && k.0 != scope[0] ==> u.roots[k] == t.roots[k])
      && (k in u.roots && k !in t.roots ==> k.0 == scope[0] && edit == MarkKnown(k.1))
  {
    if EditsServices(edit) {
      ServiceEditKeepsRoots(t, scope, edit, now);
    }
  }

  // ---- table invariants ------------------------------------------------------------

  /** A reset shadow is always a deleted row. */
  ghost predicate ShadowsDeleted(t: Tables)
  {
    && (forall k <- t.roots :: t.roots[k].resetShadow ==> t.roots[k].deleted)
    && (forall k <- t.services :: t.services[k].resetShadow ==> t.services[k].deleted)
  }

  /** The foreign key: every learned row hangs off a root of its own org. */
  ghost predicate ForeignKey(t: Tables)
  {
    forall k <- t.logs :: (k.0, k.1) in t.roots
  }

  /** No learned row is stamped later than the clock. */
  ghost predicate Clocked(t: Tables, now: int)
  {
    forall k <- t.logs :: t.logs[k].persistedAt <= now
  }

  ghost predicate Sound(t: Tables, now: int)
  {
    ShadowsDeleted(t) && ForeignKey(t) && Clocked(t, now)
  }

  // ---- runs --------------------------------------------------------------------------

  /** One committed transaction of any store in the fleet. */
  datatype Step =
    | Persist(w: Writer, ps: map<Id, Pattern>, ss: map<string, ServiceInfo>, now: int)
    | Curate(scope: seq<Org>, edit: Edit, now: int)

  function StepScope(s: Step): seq<Org>
  {
    match s case Persist(w, _, _, _) => w.scope case Curate(scope, _, _) => scope
  }

  predicate ValidStep(s: Step) { ValidScope(StepScope(s)) }

  function Apply(t: Tables, s: Step): Tables
    requires ValidStep(s)
  {
    match s
    case Persist(w, ps, ss, now) => PersistTables(t, w, ps, ss, now)
    case Curate(scope, edit, now) => CurateTables(t, scope, edit, now)
  }

  /** A run whose NOW() never goes backwards from `now`. */
  predicate ValidRun(steps: seq<Step>, now: int)
  {
    steps == [] || (ValidStep(steps[0]) && now <= steps[0].now && ValidRun(steps[1..], steps[0].now))
  }

  function Run(t: Tables, steps: seq<Step>, now: int): Tables
    requires ValidRun(steps, now)
    decreases |steps|
  {
    if steps == [] then t else Run(Apply(t, steps[0]), steps[1..], steps[0].now)
  }

  function EndTime(steps: seq<Step>, now: int): int
  {
    if steps == [] then now else EndTime(steps[1..], steps[0].now)
  }

  lemma PersistSound(t: Tables, w: Writer, ps: map<Id, Pattern>, ss: map<string, ServiceInfo>, before: int, now: int)
    requires Sound(t, before) && ValidScope(w.scope) && before <= now
    ensures Sound(PersistTables(t, w, ps, ss, now), now)
  {
    var r := PersistTables(t, w, ps, ss, now);
    PersistShadowsDeleted(t, w, ps, ss, now);
    forall k | k in r.logs ensures (k.0, k.1) in r.roots && r.logs[k].persistedAt <= now { }
  }

  lemma PersistShadowsDeleted(t: Tables, w: Writer, ps: map<Id, Pattern>, ss: map<string, ServiceInfo>, now: int)
    requires ShadowsDeleted(t) && ValidScope(w.scope)
    ensures ShadowsDeleted(PersistTables(t, w, ps, ss, now))
  {
    var r := PersistTables(t, w, ps, ss, now);
    forall k | k in r.roots ensures r.roots[k].resetShadow ==> r.roots[k].deleted {
      PersistRootShadow(t, w.scope, ps, k);
    }
    forall k | k in r.services ensures r.services[k].resetShadow ==> r.services[k].deleted {
      PersistServiceShadow(t, w.scope, ss, now, k);
    }
  }

  lemma PersistRootShadow(t: Tables, scope: seq<Org>, ps: map<Id, Pattern>, k: RootKey)
    requires ShadowsDeleted(t) && ValidScope(scope) && k in PersistRoots(t, scope, ps)
    ensures PersistRoots(t, scope, ps)[k].resetShadow ==> PersistRoots(t, scope, ps)[k].deleted
  {
  }

  lemma PersistServiceShadow(t: Tables, scope: seq<Org>, ss: map<string, ServiceInfo>, now: int, k: RootKey)
    requires ShadowsDeleted(t) && ValidScope(scope) && k in PersistServices(t, scope, ss, now)
    ensures PersistServices(t, scope, ss, now)[k].resetShadow ==> PersistServices(t, scope, ss, now)[k].deleted
  {
  }

  lemma ResetPatternsSound(t: Tables, scope: seq<Org>, before: int, now: int)
    requires Sound(t, before) && ValidScope(scope) && before <= now
    ensures Sound(ResetPatternTables(t, scope, now), now)
  {
    var r := ResetPatternTables(t, scope, now);
    forall k | k in r.logs ensures (k.0, k.1) in r.roots && r.logs[k].persistedAt <= now { }
  }

  lemma RootEditSound(t: Tables, scope: seq<Org>, edit: Edit, before: int, now: int)
    requires Sound(t, before) && ValidScope(scope) && before <= now
    requires edit.Label? || edit.MarkKnown? || edit.Repoint? || edit.Delete?
    ensures Sound(CurateTables(t, scope, edit, now), now)
  {
    var r := CurateTables(t, scope, edit, now);
    assert r.logs == t.logs && r.services == t.services && t.roots.Keys <= r.roots.Keys;
    forall k | k in r.roots ensures r.roots[k].resetShadow ==> r.roots[k].deleted { }
  }

  lemma ServiceEditSound(t: Tables, scope: seq<Org>, edit: Edit, before: int, now: int)
    requires Sound(t, before) && ValidScope(scope) && before <= now
    requires !(edit.Label? || edit.MarkKnown? || edit.Repoint? || edit.Delete? || edit.ResetPatterns?)
    ensures Sound(CurateTables(t, scope, edit, now), now)
  {
    var r := CurateTables(t, scope, edit, now);
    assert r.logs == t.logs && r.roots == t.roots;
    forall k | k in r.services ensures r.services[k].resetShadow ==> r.services[k].deleted { }
  }

  lemma ApplySound(t: Tables, s: Step, now: int)
    requires Sound(t, now) && ValidStep(s) && now <= s.now
    ensures Sound(Apply(t, s), s.now)
  {
    match s
    case Persist(w, ps, ss, n) => PersistSound(t, w, ps, ss, now, n);
    case Curate(scope, edit, n) =>
      if edit.ResetPatterns? {
        ResetPatternsSound(t, scope, now, n);
      } else if edit.Label? || edit.MarkKnown? || edit.Repoint? || edit.Delete? {
        RootEditSound(t, scope, edit, now, n);
      } else {
        ServiceEditSound(t, scope, edit, now, n);
      }
  }

  /** In every state a fleet of stores can reach from empty tables, a reset shadow
      is deleted, every learned row has its root and none is stamped in the future. */
  lemma {:induction false} ReachableSound(t: Tables, steps: seq<Step>, now: int)
    requires Sound(t, now) && ValidRun(steps, now)
    ensures Sound(Run(t, steps, now), EndTime(steps, now))
    decreases |steps|
  {
    if steps != [] {
      ApplySound(t, steps[0], now);
      ReachableSound(Apply(t, steps[0]), steps[1..], steps[0].now);
    }
  }
}
