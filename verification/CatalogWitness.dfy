/** Runs from empty tables that reach the states where operator edits and first copies go
    astray: three organizations, one pattern, one or two steps. */
module CatalogWitness {
  import opened Common
  import opened Patterns
  import opened CatalogTables
  import opened CatalogQueries
  import opened CatalogCuration

  /** `base` learned one pattern, in partition 1, at time 1. */
  function Learned(base: Org, id: Id, p: Pattern): Tables
  {
    PersistTables(EMPTY_TABLES, Writer([base], 1), map[id := p], map[], 1)
  }

  /** ... then a store of `mid` that also reads `base` was reset, at time 2. */
  function Shadowed(mid: Org, base: Org, id: Id, p: Pattern): Tables
  {
    ResetPatternTables(Learned(base, id, p), [mid, base], 2)
  }

  /** Both states are the end of a run of committed transactions. */
  lemma Reached(mid: Org, base: Org, id: Id, p: Pattern)
    ensures var learn := Persist(Writer([base], 1), map[id := p], map[], 1);
      var reset := Curate([mid, base], ResetPatterns, 2);
      && ValidRun([learn], 0) && Run(EMPTY_TABLES, [learn], 0) == Learned(base, id, p)
      && ValidRun([learn, reset], 0) && Run(EMPTY_TABLES, [learn, reset], 0) == Shadowed(mid, base, id, p)
  {
    LearnThenReset(EMPTY_TABLES, Writer([base], 1), map[id := p], map[], 1, [mid, base], 2);
  }

  lemma LearnThenReset(t: Tables, w: Writer, ps: map<Id, Pattern>, ss: map<string, ServiceInfo>, now: nat,
                       scope: seq<Org>, later: int)
    requires ValidScope(w.scope) && ValidScope(scope) && now <= later
    ensures var learn, reset := Persist(w, ps, ss, now), Curate(scope, ResetPatterns, later);
      && ValidRun([learn], 0) && Run(t, [learn], 0) == PersistTables(t, w, ps, ss, now)
      && ValidRun([learn, reset], 0)
      && Run(t, [learn, reset], 0) == ResetPatternTables(PersistTables(t, w, ps, ss, now), scope, later)
  {
    RunOne(t, Persist(w, ps, ss, now), 0);
    RunTwo(t, Persist(w, ps, ss, now), Curate(scope, ResetPatterns, later), 0);
  }

  lemma RunOne(t: Tables, a: Step, now: int)
    requires ValidStep(a) && now <= a.now
    ensures ValidRun([a], now) && Run(t, [a], now) == Apply(t, a)
  {
    assert [a][1..] == [];
  }

  lemma RunTwo(t: Tables, a: Step, b: Step, now: int)
    requires ValidStep(a) && ValidStep(b) && now <= a.now <= b.now
    ensures ValidRun([a, b], now) && Run(t, [a, b], now) == Apply(Apply(t, a), b)
  {
    assert [a, b][1..] == [b];
    RunOne(Apply(t, a), b, a.now);
  }

  lemma LearnedRows(base: Org, id: Id, p: Pattern)
    ensures var t := Learned(base, id, p);
      && t.roots == map[(base, id) := Root(p.service, "", [], false, false, None)]
      && t.logs.Keys == {(base, id, 1)} && t.logs[(base, id, 1)].persistedAt == 1
  {
    assert Learned(base, id, p).roots.Keys == {(base, id)};
  }

  lemma ShadowedRows(mid: Org, base: Org, id: Id, p: Pattern)
    requires mid != base
    ensures var t := Shadowed(mid, base, id, p);
      && t.roots.Keys == {(base, id), (mid, id)} && t.roots[(mid, id)] == Root("", "", [], true, true, Some(2))
      && t.logs == Learned(base, id, p).logs
  {
    var l := Learned(base, id, p);
    LearnedRows(base, id, p);
    assert LegacyIds(l, [mid, base]) == {id} by { assert (base, id) in l.roots.Keys; }
    ResetRows(l, mid, base, id);
  }

  lemma ResetRows(l: Tables, mid: Org, base: Org, id: Id)
    requires mid != base && l.roots.Keys == {(base, id)} && l.logs.Keys == {(base, id, 1)}
    requires LegacyIds(l, [mid, base]) == {id}
    ensures var t := ResetPatternTables(l, [mid, base], 2);
      t.roots.Keys == {(base, id), (mid, id)} && t.roots[(mid, id)] == Root("", "", [], true, true, Some(2))
        && t.logs == l.logs
  {
    var t := ResetPatternTables(l, [mid, base], 2);
    assert t.logs.Keys == l.logs.Keys;
  }

  /** A lower-scope reset shadow in sight of a store that has no root yet: its first Persist
      of the id leaves a deliberate tombstone ... */
  lemma ShadowFrozen(team: Org, mid: Org, base: Org, id: Id, p: Pattern, ps: map<Id, Pattern>, now: int)
    requires team != mid && team != base && mid != base && id in ps
    ensures var t, w := Shadowed(mid, base, id, p), Writer([team, mid, base], 0);
      !Tombstoned(t, w.scope, id) && Tombstoned(PersistTables(t, w, ps, map[], now), w.scope, id)
  {
    ShadowSeen(team, mid, base, id, p);
    FrozenBy(Shadowed(mid, base, id, p), Writer([team, mid, base], 0), ps, now, id);
  }

  lemma ShadowSeen(team: Org, mid: Org, base: Org, id: Id, p: Pattern)
    requires team != mid && team != base && mid != base
    ensures var t, scope := Shadowed(mid, base, id, p), [team, mid, base];
      && ShadowsDeleted(t) && (team, id) !in t.roots
      && ChosenRoot(t, scope, id).Some? && ChosenRoot(t, scope, id).value.1.resetShadow
  {
    LearnedRows(base, id, p);
    ShadowedRows(mid, base, id, p);
    RootRead(Shadowed(mid, base, id, p), team, mid, base, id);
    ShadowsAreDeleted(Shadowed(mid, base, id, p));
  }

  lemma FrozenBy(t: Tables, w: Writer, ps: map<Id, Pattern>, now: int, id: Id)
    requires ValidScope(w.scope) && id in ps && ShadowsDeleted(t) && (w.scope[0], id) !in t.roots
    requires ChosenRoot(t, w.scope, id).Some? && ChosenRoot(t, w.scope, id).value.1.resetShadow
    ensures !Tombstoned(t, w.scope, id) && Tombstoned(PersistTables(t, w, ps, map[], now), w.scope, id)
  {
    LegacyShadowBecomesTombstone(t, w, ps, map[], now, id);
  }

  /** ... and brings the rows from before the reset back under the root. */
  lemma BoundaryDropped(team: Org, mid: Org, base: Org, id: Id, p: Pattern, ps: map<Id, Pattern>, now: int)
    requires team != mid && team != base && mid != base && id in ps
    ensures var t, w := Shadowed(mid, base, id, p), Writer([team, mid, base], 0);
      !LogChosen(t, w.scope, id, 1) && LogChosen(PersistTables(t, w, ps, map[], now), w.scope, id, 1)
  {
    var t, w := Shadowed(mid, base, id, p), Writer([team, mid, base], 0);
    LearnedRows(base, id, p);
    ShadowedRows(mid, base, id, p);
    ShadowRead(t, w.scope, team, mid, base, id);
    CopyDropsResetBoundary(t, w, ps, map[], now, id, 1);
  }

  /** What such a store reads: the shadow, and a row from before the reset it hides. */
  lemma ShadowRead(t: Tables, scope: seq<Org>, team: Org, mid: Org, base: Org, id: Id)
    requires scope == [team, mid, base] && team != mid && team != base && mid != base
    requires t.roots.Keys == {(base, id), (mid, id)} && t.roots[(mid, id)] == Root("", "", [], true, true, Some(2))
    requires t.logs.Keys == {(base, id, 1)} && t.logs[(base, id, 1)].persistedAt == 1
    ensures ChosenRoot(t, scope, id) == Some((mid, t.roots[(mid, id)]))
    ensures RankedLog(t, scope, id, 1) == Some((base, t.logs[(base, id, 1)])) && !LogChosen(t, scope, id, 1)
  {
    RootRead(t, team, mid, base, id);
    RowRead(t, team, mid, base, id);
  }

  lemma RootRead(t: Tables, team: Org, mid: Org, base: Org, id: Id)
    requires team != mid && team != base && mid != base && t.roots.Keys == {(base, id), (mid, id)}
    ensures ChosenRoot(t, [team, mid, base], id) == Some((mid, t.roots[(mid, id)]))
  {
    assert (mid, id) in t.roots;
    forall o ensures o in RootOrgs(t, id) <==> o == mid || o == base {
      if o == mid || o == base { assert (o, id) in t.roots && (o, id).0 in RootOrgs(t, id); }
    }
    assert [team, mid, base] == [team] + [mid, base];
    FirstSkips(team, [mid, base], RootOrgs(t, id));
  }

  lemma RowRead(t: Tables, team: Org, mid: Org, base: Org, id: Id)
    requires team != mid && team != base && mid != base && t.logs.Keys == {(base, id, 1)}
    ensures RankedLog(t, [team, mid, base], id, 1) == Some((base, t.logs[(base, id, 1)]))
  {
    assert (base, id, 1) in t.logs;
    assert LogOrgs(t, id, 1) == {base} by { assert (base, id, 1).0 in LogOrgs(t, id, 1); }
    assert [team, mid, base] == [team] + [mid, base] && [mid, base] == [mid] + [base];
    FirstSkips(team, [mid, base], {base});
    FirstSkips(mid, [base], {base});
  }

  lemma FirstSkips(o: Org, rest: seq<Org>, present: set<Org>)
    requires o !in present
    ensures FirstIn([o] + rest, present) == FirstIn(rest, present)
  {
    assert ([o] + rest)[1..] == rest;
  }

  lemma ShadowsAreDeleted(t: Tables)
    requires forall k <- t.roots :: t.roots[k].resetShadow ==> t.roots[k].deleted
    requires t.services == map[]
    ensures ShadowsDeleted(t)
  {
  }

  /** A pattern only a lower-scope org holds: the delete of the store above it is lost ... */
  lemma DeleteLost(team: Org, base: Org, id: Id, p: Pattern, now: int)
    requires team != base
    ensures var t, scope := Learned(base, id, p), [team, base];
      SnapshotRow(t, scope, id).Some? && SnapshotRow(CurateTables(t, scope, Delete(id), now), scope, id).Some?
  {
    var t := Learned(base, id, p);
    LearnedRows(base, id, p);
    LowerRead(t, team, base, id);
    LowerShown(t, team, base, id);
    DeleteNeedsWriteRoot(t, [team, base], now, id);
  }

  /** ... and so is its label ... */
  lemma LabelLost(team: Org, base: Org, id: Id, p: Pattern, now: int, verdict: string)
    requires team != base
    ensures CurateTables(Learned(base, id, p), [team, base], Label(id, Some(verdict), None), now)
        == Learned(base, id, p)
  {
    LearnedRows(base, id, p);
  }

  /** ... and once the lower org has deleted it, its mark-known brings it back. */
  lemma MarkKnownLifts(team: Org, base: Org, id: Id, p: Pattern, now: int)
    requires team != base
    ensures var d, scope := CurateTables(Learned(base, id, p), [base], Delete(id), 2), [team, base];
      Tombstoned(d, scope, id) && !Tombstoned(CurateTables(d, scope, MarkKnown(id), now), scope, id)
  {
    var d := CurateTables(Learned(base, id, p), [base], Delete(id), 2);
    LearnedRows(base, id, p);
    assert d.roots.Keys == {(base, id)} && d.roots[(base, id)].deleted && !d.roots[(base, id)].resetShadow;
    LowerRead(d, team, base, id);
    MarkKnownKeepsTombstoneIff(d, [team, base], now, id);
  }

  lemma LowerShown(t: Tables, team: Org, base: Org, id: Id)
    requires ChosenRoot(t, [team, base], id).Some? && !ChosenRoot(t, [team, base], id).value.1.deleted
    requires LogChosen(t, [team, base], id, 1)
    ensures SnapshotRow(t, [team, base], id).Some?
  {
    assert 1 in ChosenLogs(t, [team, base], id);
  }

  lemma LowerRead(t: Tables, team: Org, base: Org, id: Id)
    requires team != base && t.roots.Keys == {(base, id)} && t.logs.Keys == {(base, id, 1)}
    ensures ChosenRoot(t, [team, base], id) == Some((base, t.roots[(base, id)])) && LogChosen(t, [team, base], id, 1)
  {
    var scope := [team, base];
    assert (base, id) in t.roots && (base, id, 1) in t.logs && scope[1..] == [base];
    forall o | o in RootOrgs(t, id) ensures o == base { assert (o, id) in t.roots; }
    forall o | o in LogOrgs(t, id, 1) ensures o == base { assert (o, id, 1) in t.logs; }
  }
}
