/** The Postgres catalog store of one process: transactions that commit or roll
    back, and the mark-known cache that spares repeated promotions a write. */
module CatalogStore {
  import opened Common
  import opened Patterns
  import opened CatalogTables
  import opened CatalogCuration
  import Tenancy

  /** What one Curate call does to the tables and to the process's cache, given the
      number of statements the connection completes before it fails. */
  datatype Outcome = Outcome(ok: bool, tables: Tables, cache: set<Id>)

  function Statements(edit: Edit): nat
  {
    match edit
    case Label(_, verdict, tags) => (if verdict.Some? then 1 else 0) + (if tags.Some? then 1 else 0)
    case RenameService(_, _) => 5
    case ResetPatterns => 4
    case ResetServices => 4
    case _ => 1
  }

  function CurateOutcome(t: Tables, cache: set<Id>, scope: seq<Org>, edit: Edit, now: int, script: nat): Outcome
    requires ValidScope(scope)
  {
    var key := (scope[0], if edit.Label? || edit.MarkKnown? then edit.id else "");
    if edit.Label? then
      var labelled := LabelVerdict(t, key, edit.verdict);
      var kept := if edit.verdict.Some? && edit.verdict.value != KNOWN then cache - {edit.id} else cache;
      if edit.verdict.Some? && script == 0 then Outcome(false, t, cache)
      else if script < Statements(edit) then Outcome(false, labelled, kept)
      else Outcome(true, LabelTags(labelled, key, edit.tags), kept)
    else if edit.MarkKnown? && edit.id in cache then Outcome(true, t, cache)
    else if edit.RenameService?
         && !((scope[0], edit.name) in t.services && !t.services[(scope[0], edit.name)].deleted) then
      Outcome(script >= 2, t, cache)
    else if script < Statements(edit) then Outcome(false, t, cache)
    else Outcome(true, CurateTables(t, scope, edit, now),
                 if edit.MarkKnown? then cache + {edit.id} else if edit.ResetPatterns? then {} else cache)
  }

  class Database {
    var tables: Tables
    constructor ()
      ensures tables == EMPTY_TABLES
    {
      tables := EMPTY_TABLES;
    }
  }

  class PgCatalogStore {
    const db: Database
    const scope: seq<Org>
    const instance: int
    var markedKnown: set<Id>

    constructor (db: Database, write: Org, read: seq<Org>, instance: int)
      ensures this.db == db && this.instance == instance && markedKnown == {}
      ensures scope == Tenancy.Normalized(write, read) && Valid()
    {
      var orgs := Tenancy.NewOrgScope(write, read);
      this.db := db;
      this.scope := orgs;
      this.instance := instance;
      markedKnown := {};
    }

    predicate Valid() { ValidScope(scope) }

    /** One transaction: the root and learned row of every pattern, then every
        service, in whatever order the maps yield them. Committed, the tables are
        those of PersistTables; failed at any statement, they are untouched. */
    method Persist(patterns: map<Id, Pattern>, services: map<string, ServiceInfo>, now: int, script: nat)
      returns (ok: bool)
      requires Valid()
      modifies db
      ensures ok ==> db.tables == PersistTables(old(db.tables), Writer(scope, instance), patterns, services, now)
      ensures !ok ==> db.tables == old(db.tables)
      ensures ok <==> script >= 2 * |patterns| + |services| + 2
    {
      if script == 0 { return false; }
      var tx, left := PersistPatternRows(db.tables, patterns, now, script - 1);
      if left < 0 { return false; }
      tx, left := PersistServiceRows(tx, services, now, left);
      if left <= 0 { return false; }
      PersistInTwo(db.tables, Writer(scope, instance), patterns, services, now);
      db.tables := tx;
      return true;
    }

    /** The first loop of Persist; `left` is what remains of the script, -1 once a
        statement has failed. */
    method PersistPatternRows(start: Tables, patterns: map<Id, Pattern>, now: int, script: nat)
      returns (tx: Tables, left: int)
      requires Valid()
      ensures left == if script >= 2 * |patterns| then script - 2 * |patterns| else -1
      ensures left >= 0 ==> tx == PersistTables(start, Writer(scope, instance), patterns, map[], now)
    {
      var w := Writer(scope, instance);
      tx, left := start, script;
      var todo := patterns.Keys;
      PersistNothing(tx, w, now);
      NothingDone(patterns);
      while todo != {}
        invariant todo <= patterns.Keys
        invariant tx == PersistTables(start, w, patterns - todo, map[], now)
        invariant left >= 0 && left == script - 2 * (|patterns| - |todo|)
        decreases todo
      {
        var id :| id in todo;
        OneMoreDone(patterns, todo, id);
        PersistPatternMore(start, w, patterns - todo, now, id, patterns[id]);
        if left == 0 { return tx, -1; }
        tx := UpsertRoot(tx, scope, id, patterns[id].service);
        if left == 1 { return tx, -1; }
        tx := UpsertLog(tx, w, id, patterns[id], now);
        left := left - 2;
        todo := todo - {id};
      }
      AllDone(patterns);
    }

    /** The second loop of Persist. */
    method PersistServiceRows(start: Tables, services: map<string, ServiceInfo>, now: int, script: nat)
      returns (tx: Tables, left: int)
      requires Valid()
      ensures left == if script >= |services| then script - |services| else -1
      ensures left >= 0 ==> tx == start.(services := PersistServices(start, scope, services, now))
    {
      tx, left := start, script;
      var todo := services.Keys;
      PersistNothing(start, Writer(scope, instance), now);
      NothingDone(services);
      while todo != {}
        invariant todo <= services.Keys
        invariant tx == start.(services := PersistServices(start, scope, services - todo, now))
        invariant left >= 0 && left == script - (|services| - |todo|)
        decreases todo
      {
        var name :| name in todo;
        OneMoreDone(services, todo, name);
        ServiceUnaffected(start, scope, services - todo, now, name, services[name]);
        PersistServiceMore(start, scope, services - todo, now, name, services[name]);
        if left == 0 { return tx, -1; }
        tx := UpsertService(tx, scope, name, services[name], now);
        left := left - 1;
        todo := todo - {name};
      }
      AllDone(services);
    }

    /** One operator mutation. A label's two statements share no transaction, so a
        failure between them keeps the verdict; every other edit is all or nothing. */
    method Curate(edit: Edit, now: int, script: nat) returns (ok: bool)
      requires Valid()
      modifies db, this`markedKnown
      ensures Outcome(ok, db.tables, markedKnown)
              == CurateOutcome(old(db.tables), old(markedKnown), scope, edit, now, script)
    {
      match edit
      case Label(id, verdict, tags) =>
        var left := script;
        if verdict.Some? {
          if left == 0 { return false; }
          db.tables := LabelVerdict(db.tables, (scope[0], id), verdict);
          left := left - 1;
          if verdict.value != KNOWN {
            markedKnown := markedKnown - {id};
          }
        }
        if tags.Some? {
          if left == 0 { return false; }
          db.tables := LabelTags(db.tables, (scope[0], id), tags);
        }
        return true;
      case MarkKnown(id) =>
        if id in markedKnown { return true; }
        if script == 0 { return false; }
        db.tables := MarkKnownRoot(db.tables, (scope[0], id));
        markedKnown := markedKnown + {id};
        return true;
      case ResetPatterns =>
        if script < 4 { return false; }
        db.tables := ResetPatternTables(db.tables, scope, now);
        markedKnown := {};
        return true;
      case ResetServices =>
        if script < 4 { return false; }
        db.tables := ResetServiceTables(db.tables, scope, now);
        return true;
      case RenameService(name, newName) =>
        ok := RenameServiceTx(name, newName, script);
      case _ =>
        if script == 0 { return false; }
        db.tables := CurateTables(db.tables, scope, edit, now);
        return true;
    }

    /** begin, select, tombstone the old name, upsert the new one, commit; a missing
        or deleted old name ends the transaction after the select. */
    method RenameServiceTx(name: string, newName: string, script: nat) returns (ok: bool)
      requires Valid()
      modifies db
      ensures ok <==> script >= (if (scope[0], name) in old(db.tables).services
          && !old(db.tables).services[(scope[0], name)].deleted then 5 else 2)
      ensures db.tables == if script >= 5 then RenameServiceTables(old(db.tables), scope[0], name, newName)
          else old(db.tables)
    {
      if script < 2 { return false; }
      var tx := db.tables;
      var key := (scope[0], name);
      if key !in tx.services || tx.services[key].deleted { return true; }
      var firstSeen, manual := tx.services[key].firstSeen, tx.services[key].manual;
      tx := tx.(services := tx.services[key := tx.services[key].(deleted := true)]);
      tx := tx.(services := tx.services[(scope[0], newName) := ServiceRow(manual, firstSeen, false, false)]);
      if script < 5 { return false; }
      db.tables := tx;
      return true;
    }
  }

  lemma NothingDone<V>(m: map<string, V>)
    ensures m - m.Keys == map[] && |m.Keys| == |m|
  {
  }

  lemma AllDone<V>(m: map<string, V>)
    ensures m - {} == m
  {
  }

  lemma OneMoreDone<V>(m: map<string, V>, todo: set<string>, x: string)
    requires x in todo && todo <= m.Keys
    ensures x !in m - todo && m - (todo - {x}) == (m - todo)[x := m[x]] && |todo - {x}| == |todo| - 1 && |todo| <= |m|
  {
    assert |todo| <= |m.Keys| by { SubsetSize(todo, m.Keys); }
    assert |m.Keys| == |m|;
  }

  lemma {:induction false} SubsetSize(a: set<string>, b: set<string>)
    requires a <= b
    ensures |a| <= |b|
  {
    assert b == a + (b - a);
  }

  lemma PersistNothing(t: Tables, w: Writer, now: int)
    requires ValidScope(w.scope)
    ensures PersistTables(t, w, map[], map[], now) == t
  {
    assert PersistRoots(t, w.scope, map[]) == t.roots;
    assert PersistLogs(t, w, map[], now) == t.logs;
    assert PersistServices(t, w.scope, map[], now) == t.services;
  }

  lemma PersistInTwo(t: Tables, w: Writer, ps: map<Id, Pattern>, ss: map<string, ServiceInfo>, now: int)
    requires ValidScope(w.scope)
    ensures var mid := PersistTables(t, w, ps, map[], now);
      mid.(services := PersistServices(mid, w.scope, ss, now)) == PersistTables(t, w, ps, ss, now)
  {
    SameServicesSamePersist(t, PersistTables(t, w, ps, map[], now), w.scope, ss, now);
  }

  lemma SameServicesSamePersist(t: Tables, u: Tables, scope: seq<Org>, ss: map<string, ServiceInfo>, now: int)
    requires ValidScope(scope) && t.services == u.services
    ensures PersistServices(u, scope, ss, now) == PersistServices(t, scope, ss, now)
  {
    forall name ensures ChosenService(u, scope, name) == ChosenService(t, scope, name) {
      assert ServiceOrgs(u, name) == ServiceOrgs(t, name);
    }
  }

  lemma UpsertUnaffected(t: Tables, w: Writer, ps: map<Id, Pattern>, now: int, id: Id, service: string)
    requires ValidScope(w.scope) && id !in ps
    ensures RootAfterUpsert(PersistTables(t, w, ps, map[], now), w.scope, id, service)
        == RootAfterUpsert(t, w.scope, id, service)
  {
    PersistedRoot(t, w, ps, map[], now, id);
  }

  lemma PersistRootMoreAt(t: Tables, scope: seq<Org>, ps: map<Id, Pattern>, id: Id, p: Pattern, k: RootKey)
    requires ValidScope(scope) && id !in ps
    ensures var more, less := PersistRoots(t, scope, ps[id := p]), PersistRoots(t, scope, ps);
      && (k in more <==> k in less || k == (scope[0], id))
      && (k in more ==> more[k] == if k == (scope[0], id) then RootAfterUpsert(t, scope, id, p.service) else less[k])
  {
  }

  lemma PersistRootMore(t: Tables, scope: seq<Org>, ps: map<Id, Pattern>, id: Id, p: Pattern)
    requires ValidScope(scope) && id !in ps
    ensures PersistRoots(t, scope, ps[id := p])
        == PersistRoots(t, scope, ps)[(scope[0], id) := RootAfterUpsert(t, scope, id, p.service)]
  {
    var more := PersistRoots(t, scope, ps[id := p]);
    var expected := PersistRoots(t, scope, ps)[(scope[0], id) := RootAfterUpsert(t, scope, id, p.service)];
    forall k: RootKey ensures (k in more <==> k in expected) && (k in more ==> more[k] == expected[k]) {
      PersistRootMoreAt(t, scope, ps, id, p, k);
    }
  }

  lemma PersistLogMoreAt(t: Tables, w: Writer, ps: map<Id, Pattern>, now: int, id: Id, p: Pattern, k: LogKey)
    requires ValidScope(w.scope) && id !in ps
    ensures var more, less, key := PersistLogs(t, w, ps[id := p], now), PersistLogs(t, w, ps, now),
        (w.scope[0], id, w.instance);
      && (k in more <==> k in less || k == key)
      && (k in more ==> more[k] == if k == key then LogAfterUpsert(LogAt(t, key), p, now) else less[k])
  {
  }

  lemma PersistLogMore(t: Tables, w: Writer, ps: map<Id, Pattern>, now: int, id: Id, p: Pattern)
    requires ValidScope(w.scope) && id !in ps
    ensures var key := (w.scope[0], id, w.instance);
      PersistLogs(t, w, ps[id := p], now) == PersistLogs(t, w, ps, now)[key := LogAfterUpsert(LogAt(t, key), p, now)]
  {
    var key := (w.scope[0], id, w.instance);
    var more := PersistLogs(t, w, ps[id := p], now);
    var expected := PersistLogs(t, w, ps, now)[key := LogAfterUpsert(LogAt(t, key), p, now)];
    forall k: LogKey ensures (k in more <==> k in expected) && (k in more ==> more[k] == expected[k]) {
      PersistLogMoreAt(t, w, ps, now, id, p, k);
    }
  }

  lemma PersistPatternMore(t: Tables, w: Writer, ps: map<Id, Pattern>, now: int, id: Id, p: Pattern)
    requires ValidScope(w.scope) && id !in ps
    ensures PersistTables(t, w, ps[id := p], map[], now)
            == UpsertLog(UpsertRoot(PersistTables(t, w, ps, map[], now), w.scope, id, p.service), w, id, p, now)
  {
    UpsertUnaffected(t, w, ps, now, id, p.service);
    PersistRootMore(t, w.scope, ps, id, p);
    PersistLogMore(t, w, ps, now, id, p);
    var key := (w.scope[0], id, w.instance);
    assert LogAt(PersistTables(t, w, ps, map[], now), key) == LogAt(t, key);
  }

  lemma ServiceUnaffected(t: Tables, scope: seq<Org>, ss: map<string, ServiceInfo>, now: int, name: string,
                          info: ServiceInfo)
    requires ValidScope(scope) && name !in ss
    ensures var mid := t.(services := PersistServices(t, scope, ss, now));
      ServiceAfterUpsert(mid, scope, name, info, now) == ServiceAfterUpsert(t, scope, name, info, now)
  {
    var mid := t.(services := PersistServices(t, scope, ss, now));
    assert ServiceOrgs(mid, name) == ServiceOrgs(t, name);
  }

  lemma PersistServiceMoreAt(t: Tables, scope: seq<Org>, ss: map<string, ServiceInfo>, now: int, name: string,
                             info: ServiceInfo, k: RootKey)
    requires ValidScope(scope) && name !in ss
    ensures var more, less := PersistServices(t, scope, ss[name := info], now), PersistServices(t, scope, ss, now);
      && (k in more <==> k in less || k == (scope[0], name))
      && (k in more ==> more[k] == if k == (scope[0], name) then ServiceAfterUpsert(t, scope, name, info, now)
          else less[k])
  {
  }

  lemma PersistServiceMore(t: Tables, scope: seq<Org>, ss: map<string, ServiceInfo>, now: int, name: string,
                           info: ServiceInfo)
    requires ValidScope(scope) && name !in ss
    ensures PersistServices(t, scope, ss[name := info], now)
            == PersistServices(t, scope, ss, now)[(scope[0], name) := ServiceAfterUpsert(t, scope, name, info, now)]
  {
    var more := PersistServices(t, scope, ss[name := info], now);
    var less := PersistServices(t, scope, ss, now);
    var expected := less[(scope[0], name) := ServiceAfterUpsert(t, scope, name, info, now)];
    forall k: RootKey ensures (k in more <==> k in expected) && (k in more ==> more[k] == expected[k]) {
      PersistServiceMoreAt(t, scope, ss, now, name, info, k);
    }
  }

  // ---- cache transparency ----------------------------------------------------------------

  /** Every cached id has a write-org root with verdict "known". */
  ghost predicate CacheSound(t: Tables, cache: set<Id>, scope: seq<Org>)
    requires ValidScope(scope)
  {
    forall id <- cache :: (scope[0], id) in t.roots && t.roots[(scope[0], id)].verdict == KNOWN
  }

  /** One store call of a process, with the number of statements that succeed. */
  datatype Op =
    | Flush(patterns: map<Id, Pattern>, services: map<string, ServiceInfo>, now: int, script: nat)
    | Edits(edit: Edit, now: int, script: nat)

  function OpOutcome(t: Tables, cache: set<Id>, w: Writer, op: Op): Outcome
    requires ValidScope(w.scope)
  {
    match op
    case Flush(ps, ss, now, script) =>
      if script >= 2 * |ps| + |ss| + 2 then Outcome(true, PersistTables(t, w, ps, ss, now), cache)
      else Outcome(false, t, cache)
    case Edits(edit, now, script) => CurateOutcome(t, cache, w.scope, edit, now, script)
  }

  /** The tables a process leaves; without the cache every call starts from an empty one. */
  function ProcessRun(t: Tables, cache: set<Id>, w: Writer, ops: seq<Op>, cached: bool): Tables
    requires ValidScope(w.scope)
    decreases |ops|
  {
    if ops == [] then t
    else
      var r := OpOutcome(t, if cached then cache else {}, w, ops[0]);
      ProcessRun(r.tables, r.cache, w, ops[1..], cached)
  }

  lemma OpKeepsCacheSound(t: Tables, cache: set<Id>, w: Writer, op: Op)
    requires ValidScope(w.scope) && CacheSound(t, cache, w.scope)
    ensures CacheSound(OpOutcome(t, cache, w, op).tables, OpOutcome(t, cache, w, op).cache, w.scope)
    ensures OpOutcome(t, cache, w, op).tables == OpOutcome(t, {}, w, op).tables
  {
    if op.Edits? { EditKeepsCacheSound(t, cache, w.scope, op.edit, op.now, op.script); }
  }

  lemma EditKeepsCacheSound(t: Tables, cache: set<Id>, scope: seq<Org>, edit: Edit, now: int, script: nat)
    requires ValidScope(scope) && CacheSound(t, cache, scope)
    ensures CacheSound(CurateOutcome(t, cache, scope, edit, now, script).tables,
        CurateOutcome(t, cache, scope, edit, now, script).cache, scope)
    ensures CurateOutcome(t, cache, scope, edit, now, script).tables
        == CurateOutcome(t, {}, scope, edit, now, script).tables
  {
    if EditsServices(edit) { ServiceEditKeepsRoots(t, scope, edit, now); }
  }

  /** For one process, any sequence of Persist and Curate calls, each completing or
      failing, leaves the tables exactly as it would without the cache. */
  lemma {:induction false} CacheTransparent(t: Tables, cache: set<Id>, other: set<Id>, w: Writer, ops: seq<Op>)
    requires ValidScope(w.scope) && CacheSound(t, cache, w.scope)
    ensures ProcessRun(t, cache, w, ops, true) == ProcessRun(t, other, w, ops, false)
    decreases |ops|
  {
    if ops != [] {
      OpKeepsCacheSound(t, cache, w, ops[0]);
      var r, plain := OpOutcome(t, cache, w, ops[0]), OpOutcome(t, {}, w, ops[0]);
      CacheTransparent(r.tables, r.cache, plain.cache, w, ops[1..]);
    }
  }

  /** Across processes it is not: a cached promotion is lost exactly when another
      process has meanwhile cleared the verdict or removed the root. */
  lemma CachedPromotionLostIff(t: Tables, cache: set<Id>, scope: seq<Org>, id: Id, now: int, script: nat)
    requires ValidScope(scope) && id in cache && script > 0
    ensures CurateOutcome(t, cache, scope, MarkKnown(id), now, script).tables
            != CurateOutcome(t, {}, scope, MarkKnown(id), now, script).tables
            <==> (scope[0], id) !in t.roots || t.roots[(scope[0], id)].verdict != KNOWN
  {
    var plain := CurateOutcome(t, {}, scope, MarkKnown(id), now, script).tables;
    if (scope[0], id) !in t.roots || t.roots[(scope[0], id)].verdict != KNOWN {
      assert (scope[0], id) in plain.roots && plain.roots[(scope[0], id)].verdict == KNOWN;
    }
  }
}
