/** The services a scope reads, and what Persist, resets and renames do to them. */
module CatalogServices {
  import opened Common
  import opened Patterns
  import opened CatalogTables

  /** A service as Snapshot, Load and the service lookup report it. */
  function ServiceView(t: Tables, scope: seq<Org>, name: string): Option<ServiceInfo>
  {
    match ChosenService(t, scope, name)
    case None => None
    case Some(c) => if c.1.deleted then None else Some(ServiceInfo(c.0, c.1.firstSeen, c.1.manual))
  }

  /** Deleted, and not by a reset of this write org's own. */
  ghost predicate ServiceSuppressed(t: Tables, scope: seq<Org>, name: string)
    requires ValidScope(scope)
  {
    var c := ChosenService(t, scope, name);
    c.Some? && c.value.1.deleted && !(c.value.0 == scope[0] && c.value.1.resetShadow)
  }

  /** Right after a reset no service is read, in the whole scope. */
  lemma ResetEmptiesServices(t: Tables, scope: seq<Org>, now: int, name: string)
    requires ValidScope(scope)
    ensures ServiceView(ResetServiceTables(t, scope, now), scope, name).None?
  {
    var u := ResetServiceTables(t, scope, now);
    forall o | o in scope && (o, name) in u.services
        ensures (scope[0], name) in u.services && u.services[(scope[0], name)].deleted {
      if o != scope[0] {
        assert (o, name) in t.services.Keys;
        assert name in LegacyServices(t, scope);
      }
    }
  }

  /** The write org's row after a Persist decides what is read of a name it carries. */
  lemma PersistedService(t: Tables, w: Writer, ps: map<Id, Pattern>, ss: map<string, ServiceInfo>, now: int,
                         name: string)
    requires ValidScope(w.scope)
    ensures var u := PersistTables(t, w, ps, ss, now);
      if name in ss then ChosenService(u, w.scope, name)
          == Some((w.scope[0], ServiceAfterUpsert(t, w.scope, name, ss[name], now)))
      else ChosenService(u, w.scope, name) == ChosenService(t, w.scope, name)
  {
    var u := PersistTables(t, w, ps, ss, now);
    if name in ss {
      assert (w.scope[0], name) in u.services;
    } else {
      OtherServicesKept(t, u, w.scope, name);
    }
  }

  lemma OtherServicesKept(t: Tables, u: Tables, scope: seq<Org>, name: string)
    requires forall o: Org :: (o, name) in u.services <==> (o, name) in t.services
    requires forall o: Org :: (o, name) in t.services ==> u.services[(o, name)] == t.services[(o, name)]
    ensures ChosenService(u, scope, name) == ChosenService(t, scope, name)
  {
    assert ServiceOrgs(u, name) == ServiceOrgs(t, name) by {
      forall o ensures o in ServiceOrgs(u, name) <==> o in ServiceOrgs(t, name) {
        if (o, name) in t.services {
          assert (o, name).0 in ServiceOrgs(t, name) && (o, name).0 in ServiceOrgs(u, name);
        }
      }
    }
  }

  /** Persist never moves the grace anchor or the origin of a service that is read. */
  lemma PersistKeepsService(t: Tables, w: Writer, ps: map<Id, Pattern>, ss: map<string, ServiceInfo>, now: int,
                            name: string)
    requires ValidScope(w.scope) && ShadowsDeleted(t) && ServiceView(t, w.scope, name).Some?
    ensures var was, after := ServiceView(t, w.scope, name).value,
        ServiceView(PersistTables(t, w, ps, ss, now), w.scope, name);
      after.Some? && after.value.firstSeen == was.firstSeen && after.value.manual == was.manual
  {
    PersistedService(t, w, ps, ss, now, name);
  }

  /** A name that Persist carries is read afterwards exactly when it was not suppressed:
      the write org's own reset shadow is revived, everything else deleted stays so. */
  lemma PersistRevivesService(t: Tables, w: Writer, ps: map<Id, Pattern>, ss: map<string, ServiceInfo>, now: int,
                              name: string)
    requires ValidScope(w.scope) && ShadowsDeleted(t) && name in ss
    ensures ServiceView(PersistTables(t, w, ps, ss, now), w.scope, name).Some? <==> !ServiceSuppressed(t, w.scope, name)
  {
    PersistedService(t, w, ps, ss, now, name);
  }

  /** Renaming a service that is read moves it, grace anchor and origin included, exactly
      when the write org holds its row; otherwise nothing changes and success is reported. */
  lemma RenameNeedsWriteRow(t: Tables, scope: seq<Org>, name: string, newName: string, now: int)
    requires ValidScope(scope) && ServiceView(t, scope, name).Some? && name != newName
    ensures var u := CurateTables(t, scope, RenameService(name, newName), now);
      if (scope[0], name) in t.services then
        var was := ServiceView(t, scope, name).value;
        ServiceView(u, scope, name).None? && ServiceView(u, scope, newName)
          == Some(ServiceInfo(scope[0], was.firstSeen, was.manual))
      else u == t
  {
    var u := CurateTables(t, scope, RenameService(name, newName), now);
    if (scope[0], name) in t.services {
      assert (scope[0], name) in u.services && (scope[0], newName) in u.services;
    }
  }
}
