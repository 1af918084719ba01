/** Curated state against learned state: what Persist may and may not change, how
    long a tombstone lives, and where an operator's edit is lost. */
module CatalogCuration {
  import opened Common
  import opened Patterns
  import opened CatalogTables
  import opened CatalogQueries

  /** A deliberate tombstone on the root a scope reads. */
  ghost predicate Tombstoned(t: Tables, scope: seq<Org>, id: Id)
  {
    var c := ChosenRoot(t, scope, id);
    c.Some? && c.value.1.deleted && !c.value.1.resetShadow
  }

  /** A deleted root that the next Persist of the id cannot revive: a tombstone, or
      a reset shadow that is not in the write org. */
  ghost predicate Suppressed(t: Tables, scope: seq<Org>, id: Id)
    requires ValidScope(scope)
  {
    var c := ChosenRoot(t, scope, id);
    c.Some? && c.value.1.deleted && !(c.value.0 == scope[0] && c.value.1.resetShadow)
  }

  lemma PersistedRoot(t: Tables, w: Writer, ps: map<Id, Pattern>, ss: map<string, ServiceInfo>, now: int, id: Id)
    requires ValidScope(w.scope)
    ensures id in ps ==>
              ChosenRoot(PersistTables(t, w, ps, ss, now), w.scope, id)
              == Some((w.scope[0], RootAfterUpsert(t, w.scope, id, ps[id].service)))
    ensures id !in ps ==> ChosenRoot(PersistTables(t, w, ps, ss, now), w.scope, id) == ChosenRoot(t, w.scope, id)
  {
    var u := PersistTables(t, w, ps, ss, now);
    if id in ps {
      assert (w.scope[0], id) in KeysOf(w.scope[0], ps.Keys);
    } else {
      assert RootOrgs(u, id) == RootOrgs(t, id);
    }
  }

  lemma PersistedLog(t: Tables, w: Writer, ps: map<Id, Pattern>, ss: map<string, ServiceInfo>, now: int, id: Id,
                     inst: int)
    requires ValidScope(w.scope)
    ensures id in ps && inst == w.instance ==>
              RankedLog(PersistTables(t, w, ps, ss, now), w.scope, id, inst)
              == Some((w.scope[0], LogAfterUpsert(LogAt(t, (w.scope[0], id, inst)), ps[id], now)))
    ensures !(id in ps && inst == w.instance) ==>
              RankedLog(PersistTables(t, w, ps, ss, now), w.scope, id, inst) == RankedLog(t, w.scope, id, inst)
  {
    var u := PersistTables(t, w, ps, ss, now);
    if id in ps && inst == w.instance {
      assert (w.scope[0], id, inst) in LogKeysOf(w, ps.Keys);
    } else {
      assert LogOrgs(u, id, inst) == LogOrgs(t, id, inst);
    }
  }

  lemma UnpersistedRow(t: Tables, w: Writer, ps: map<Id, Pattern>, ss: map<string, ServiceInfo>, now: int, id: Id)
    requires ValidScope(w.scope) && id !in ps
    ensures SnapshotRow(PersistTables(t, w, ps, ss, now), w.scope, id) == SnapshotRow(t, w.scope, id)
  {
    var u := PersistTables(t, w, ps, ss, now);
    PersistedRoot(t, w, ps, ss, now, id);
    forall i: int ensures RankedLog(u, w.scope, id, i) == RankedLog(t, w.scope, id, i) {
      PersistedLog(t, w, ps, ss, now, id, i);
    }
    SameRankedSameRow(t, u, w.scope, id);
  }

  lemma SameRankedSameRow(t: Tables, u: Tables, scope: seq<Org>, id: Id)
    requires ChosenRoot(u, scope, id) == ChosenRoot(t, scope, id)
    requires forall i :: RankedLog(u, scope, id, i) == RankedLog(t, scope, id, i)
    ensures SnapshotRow(u, scope, id) == SnapshotRow(t, scope, id)
  {
    SameRankedSameLogs(t, u, scope, id);
  }

  lemma SameRankedSameLogs(t: Tables, u: Tables, scope: seq<Org>, id: Id)
    requires ChosenRoot(u, scope, id) == ChosenRoot(t, scope, id)
    requires forall i :: RankedLog(u, scope, id, i) == RankedLog(t, scope, id, i)
    ensures ChosenLogs(u, scope, id) == ChosenLogs(t, scope, id)
  {
    forall i: int ensures LogChosen(u, scope, id, i) <==> LogChosen(t, scope, id, i) {
      assert RankedLog(u, scope, id, i) == RankedLog(t, scope, id, i);
    }
  }

  /** No Persist changes the verdict or tags a scope reads for an id that has a root,
      nor whether it is deleted, except by reviving a write-org reset shadow it
      persists; and it touches nothing of an id it does not carry. */
  lemma PersistKeepsCuration(t: Tables, w: Writer, ps: map<Id, Pattern>, ss: map<string, ServiceInfo>, now: int, id: Id)
    requires ValidScope(w.scope) && ChosenRoot(t, w.scope, id).Some?
    ensures var c := ChosenRoot(t, w.scope, id).value;
      var d := ChosenRoot(PersistTables(t, w, ps, ss, now), w.scope, id);
      && d.Some? && d.value.1.verdict == c.1.verdict && d.value.1.tags == c.1.tags
      && (d.value.1.deleted <==> c.1.deleted && !(id in ps && c.0 == w.scope[0] && c.1.resetShadow))
    ensures id !in ps ==> SnapshotRow(PersistTables(t, w, ps, ss, now), w.scope, id) == SnapshotRow(t, w.scope, id)
  {
    PersistedRoot(t, w, ps, ss, now, id);
    if id !in ps {
      UnpersistedRow(t, w, ps, ss, now, id);
    }
  }

  /** After a Persist of an id, Snapshot reports it exactly when it was not suppressed:
      a reset shadow of the write org is revived, a deliberate tombstone is not, and
      neither is a shadow a lower-scope org left behind. */
  lemma PersistRevives(t: Tables, w: Writer, ps: map<Id, Pattern>, ss: map<string, ServiceInfo>, now: int, id: Id)
    requires ValidScope(w.scope) && id in ps
    ensures id in Snapshot(PersistTables(t, w, ps, ss, now), w.scope) <==> !Suppressed(t, w.scope, id)
  {
    PersistedRoot(t, w, ps, ss, now, id);
    PersistedLog(t, w, ps, ss, now, id, w.instance);
    var u := PersistTables(t, w, ps, ss, now);
    assert LogChosen(u, w.scope, id, w.instance);
    CountedIsSeen(u, w.scope, id, w.instance);
    UpsertSuppresses(t, w.scope, id, ps[id].service);
  }

  /** An id with a partition a read counts is reported exactly when its root is not deleted. */
  lemma CountedIsSeen(t: Tables, scope: seq<Org>, id: Id, inst: int)
    requires LogChosen(t, scope, id, inst)
    ensures id in Snapshot(t, scope) <==> !ChosenRoot(t, scope, id).value.1.deleted
  {
    assert inst in ChosenLogs(t, scope, id);
  }

  lemma UpsertSuppresses(t: Tables, scope: seq<Org>, id: Id, service: string)
    requires ValidScope(scope)
    ensures RootAfterUpsert(t, scope, id, service).deleted <==> Suppressed(t, scope, id)
  {
  }

  /** The first copy of a lower-scope reset shadow freezes it: the write org gets a
      deliberate tombstone, so re-learning the id no longer brings it back. */
  lemma LegacyShadowBecomesTombstone(t: Tables, w: Writer, ps: map<Id, Pattern>, ss: map<string, ServiceInfo>,
                                     now: int, id: Id)
    requires ValidScope(w.scope) && id in ps && ShadowsDeleted(t)
    requires ChosenRoot(t, w.scope, id).Some?
    ensures Tombstoned(PersistTables(t, w, ps, ss, now), w.scope, id)
            <==> Tombstoned(t, w.scope, id)
                 || (ChosenRoot(t, w.scope, id).value.1.resetShadow && (w.scope[0], id) !in t.roots)
  {
    PersistedRoot(t, w, ps, ss, now, id);
  }

  /** The first copy also drops the reset boundary of the root it copies: a partition
      hidden by that boundary becomes countable again exactly when the write org had
      no root of its own. */
  lemma CopyDropsResetBoundary(t: Tables, w: Writer, ps: map<Id, Pattern>, ss: map<string, ServiceInfo>, now: int,
                               id: Id, inst: int)
    requires ValidScope(w.scope) && id in ps && inst != w.instance
    requires ChosenRoot(t, w.scope, id).Some? && RankedLog(t, w.scope, id, inst).Some?
    requires !LogChosen(t, w.scope, id, inst)
    ensures LogChosen(PersistTables(t, w, ps, ss, now), w.scope, id, inst) <==> (w.scope[0], id) !in t.roots
  {
    PersistedRoot(t, w, ps, ss, now, id);
    PersistedLog(t, w, ps, ss, now, id, inst);
  }

  // ---- tombstones over runs -----------------------------------------------------------

  ghost predicate TombstoneRow(t: Tables, key: RootKey)
  {
    key in t.roots && t.roots[key].deleted && !t.roots[key].resetShadow
  }

  predicate ResetsOrg(s: Step, o: Org)
  {
    s.Curate? && s.edit.ResetPatterns? && ValidScope(s.scope) && s.scope[0] == o
  }

  lemma StepKeepsTombstoneRow(t: Tables, s: Step, key: RootKey)
    requires TombstoneRow(t, key) && ValidStep(s) && !ResetsOrg(s, key.0)
    ensures TombstoneRow(Apply(t, s), key)
  {
    if s.Curate? && !s.edit.ResetPatterns? {
      if s.edit.Label? || s.edit.MarkKnown? || s.edit.Repoint? || s.edit.Delete? {
      } else {
        assert Apply(t, s).roots == t.roots;
      }
    }
  }

  /** A deliberate tombstone in an org survives every mix of Persists and edits by any
      stores until that org's patterns are reset, and Snapshot never shows the id. */
  lemma {:induction false} TombstoneSurvives(t: Tables, steps: seq<Step>, now: int, key: RootKey, scope: seq<Org>)
    requires TombstoneRow(t, key) && ValidRun(steps, now)
    requires forall s <- steps :: !ResetsOrg(s, key.0)
    requires ValidScope(scope) && scope[0] == key.0
    ensures TombstoneRow(Run(t, steps, now), key)
    ensures key.1 !in Snapshot(Run(t, steps, now), scope)
    decreases |steps|
  {
    if steps != [] {
      StepKeepsTombstoneRow(t, steps[0], key);
      TombstoneSurvives(Apply(t, steps[0]), steps[1..], steps[0].now, key, scope);
    }
  }

  /** MarkKnown inserts a bare live root when the write org has none, so it keeps a
      scope's tombstone exactly when the write org already has a root of the id. */
  lemma MarkKnownKeepsTombstoneIff(t: Tables, scope: seq<Org>, now: int, id: Id)
    requires ValidScope(scope) && Tombstoned(t, scope, id)
    ensures Tombstoned(CurateTables(t, scope, MarkKnown(id), now), scope, id) <==> (scope[0], id) in t.roots
  {
    assert (scope[0], id) in CurateTables(t, scope, MarkKnown(id), now).roots;
  }

  /** A step that could lift a lower-scope tombstone. */
  predicate MayLift(s: Step, id: Id)
  {
    s.Curate? && (s.edit.ResetPatterns? || s.edit == MarkKnown(id))
  }

  lemma OtherRootsKept(t: Tables, u: Tables, scope: seq<Org>, id: Id)
    requires forall o :: (o, id) in u.roots <==> (o, id) in t.roots
    ensures RootOrgs(u, id) == RootOrgs(t, id)
  {
    forall o ensures o in RootOrgs(u, id) <==> o in RootOrgs(t, id) {
      if (o, id) in t.roots { assert (o, id).0 in RootOrgs(t, id); }
      if (o, id) in u.roots { assert (o, id).0 in RootOrgs(u, id); }
    }
  }

  lemma StepKeepsScopeTombstone(t: Tables, s: Step, scope: seq<Org>, id: Id)
    requires ValidScope(scope) && ValidStep(s) && StepScope(s) == scope && Tombstoned(t, scope, id)
    requires MayLift(s, id) ==> s.edit == MarkKnown(id) && (scope[0], id) in t.roots
    ensures Tombstoned(Apply(t, s), scope, id)
  {
    var u := Apply(t, s);
    match s
    case Persist(w, ps, ss, n) =>
      PersistedRoot(t, w, ps, ss, n, id);
    case Curate(_, edit, n) =>
      if (scope[0], id) in t.roots {
        StepKeepsTombstoneRow(t, s, (scope[0], id));
      } else {
        EditKeepsOtherRoots(t, s, scope, id);
        OtherRootsKept(t, u, scope, id);
      }
  }

  lemma EditKeepsOtherRoots(t: Tables, s: Step, scope: seq<Org>, id: Id)
    requires ValidScope(scope) && ValidStep(s) && StepScope(s) == scope && s.Curate?
    requires (scope[0], id) !in t.roots && !MayLift(s, id)
    ensures forall o :: (o, id) in Apply(t, s).roots <==> (o, id) in t.roots
    ensures forall o :: (o, id) in t.roots ==> Apply(t, s).roots[(o, id)] == t.roots[(o, id)]
  {
    forall o: Org
      ensures (o, id) in Apply(t, s).roots <==> (o, id) in t.roots
      ensures (o, id) in t.roots ==> Apply(t, s).roots[(o, id)] == t.roots[(o, id)] {
      EditKeepsRoot(t, scope, s.edit, s.now, (o, id));
    }
  }

  /** A tombstone on whatever root a fleet reads - also one only a lower-scope org
      holds, through its first copy into the write org - survives every run of the
      fleet's Persists and edits without a reset, provided no MarkKnown of the id can
      come before that first copy. */
  lemma {:induction false} ScopeTombstoneSurvives(t: Tables, steps: seq<Step>, now: int, scope: seq<Org>, id: Id)
    requires ValidScope(scope) && ValidRun(steps, now) && Tombstoned(t, scope, id)
    requires forall s <- steps :: StepScope(s) == scope && !(s.Curate? && s.edit.ResetPatterns?)
    requires (scope[0], id) in t.roots || forall s <- steps :: !MayLift(s, id)
    ensures Tombstoned(Run(t, steps, now), scope, id)
    ensures id !in Snapshot(Run(t, steps, now), scope)
    decreases |steps|
  {
    if steps == [] {
      TombstonedHidden(t, scope, id);
    } else {
      var s := steps[0];
      StepKeepsScopeTombstone(t, s, scope, id);
      if (scope[0], id) in t.roots { RootsStay(t, s, (scope[0], id)); }
      ScopeTombstoneSurvives(Apply(t, s), steps[1..], s.now, scope, id);
    }
  }

  /** A store of the same write org that reads other orgs below it may carry a tombstoned id
      the write org has no root of: the tombstone then stays exactly when that store's own
      scope reads a deleted root. */
  lemma OtherScopePersistKeepsIff(t: Tables, scope: seq<Org>, w: Writer, ps: map<Id, Pattern>,
                                  ss: map<string, ServiceInfo>,
                                  now: int, id: Id)
    requires ValidScope(scope) && ValidScope(w.scope) && w.scope[0] == scope[0] && id in ps
    requires Tombstoned(t, scope, id) && (scope[0], id) !in t.roots
    ensures Tombstoned(PersistTables(t, w, ps, ss, now), scope, id)
            <==> ChosenRoot(t, w.scope, id).Some? && ChosenRoot(t, w.scope, id).value.1.deleted
  {
    var u := PersistTables(t, w, ps, ss, now);
    assert (scope[0], id) in u.roots && u.roots[(scope[0], id)] == RootAfterUpsert(t, w.scope, id, ps[id].service);
  }

  lemma TombstonedHidden(t: Tables, scope: seq<Org>, id: Id)
    requires ValidScope(scope) && Tombstoned(t, scope, id)
    ensures id !in Snapshot(t, scope)
  {
  }

  lemma RootsStay(t: Tables, s: Step, k: RootKey)
    requires ValidStep(s) && k in t.roots && !(s.Curate? && s.edit.ResetPatterns?)
    ensures k in Apply(t, s).roots
  {
  }

  // ---- operator edits that miss --------------------------------------------------------

  /** Delete of a reported pattern takes effect exactly when the write org holds a
      root of it: an UPDATE that matches no row reports success all the same. */
  lemma DeleteNeedsWriteRoot(t: Tables, scope: seq<Org>, now: int, id: Id)
    requires ValidScope(scope) && SnapshotRow(t, scope, id).Some?
    ensures SnapshotRow(CurateTables(t, scope, Delete(id), now), scope, id).None? <==> (scope[0], id) in t.roots
  {
    DeletedRow(t, scope, now, id);
    if (scope[0], id) in t.roots {
      DeletedRootHides(CurateTables(t, scope, Delete(id), now), scope, id);
    }
  }

  lemma DeletedRow(t: Tables, scope: seq<Org>, now: int, id: Id)
    requires ValidScope(scope)
    ensures var u := CurateTables(t, scope, Delete(id), now);
      if (scope[0], id) in t.roots then (scope[0], id) in u.roots && u.roots[(scope[0], id)].deleted else u == t
  {
  }

  lemma DeletedRootHides(t: Tables, scope: seq<Org>, id: Id)
    requires ValidScope(scope) && (scope[0], id) in t.roots && t.roots[(scope[0], id)].deleted
    ensures SnapshotRow(t, scope, id).None?
  {
  }

  lemma LabelledRows(t: Tables, scope: seq<Org>, id: Id, verdict: string)
    requires ValidScope(scope) && (scope[0], id) in t.roots
    ensures var u := LabelVerdict(t, (scope[0], id), Some(verdict));
      ChosenLogs(u, scope, id) == ChosenLogs(t, scope, id)
      && ChosenRoot(u, scope, id) == Some((scope[0], t.roots[(scope[0], id)].(verdict := verdict)))
  {
    var u := LabelVerdict(t, (scope[0], id), Some(verdict));
    forall i: int ensures RankedLog(u, scope, id, i) == RankedLog(t, scope, id, i) {
      assert LogOrgs(u, id, i) == LogOrgs(t, id, i);
    }
    SameResetSameLogs(t, u, scope, id);
  }

  /** Roots that differ in neither presence nor reset time read the same learned rows. */
  lemma SameResetSameLogs(t: Tables, u: Tables, scope: seq<Org>, id: Id)
    requires ChosenRoot(t, scope, id).Some? && ChosenRoot(u, scope, id).Some?
    requires ChosenRoot(t, scope, id).value.0 == ChosenRoot(u, scope, id).value.0
    requires ChosenRoot(t, scope, id).value.1.resetAt == ChosenRoot(u, scope, id).value.1.resetAt
    requires forall i :: RankedLog(u, scope, id, i) == RankedLog(t, scope, id, i)
    ensures ChosenLogs(u, scope, id) == ChosenLogs(t, scope, id)
  {
    forall i: int ensures LogChosen(u, scope, id, i) <==> LogChosen(t, scope, id, i) {
      assert RankedLog(u, scope, id, i) == RankedLog(t, scope, id, i);
    }
  }

  /** ... and so does a Label that changes a reported verdict. */
  lemma LabelNeedsWriteRoot(t: Tables, scope: seq<Org>, now: int, id: Id, verdict: string)
    requires ValidScope(scope) && SnapshotRow(t, scope, id).Some? && SnapshotRow(t, scope, id).value.verdict != verdict
    ensures var u := CurateTables(t, scope, Label(id, Some(verdict), None), now);
      (SnapshotRow(u, scope, id).Some? && SnapshotRow(u, scope, id).value.verdict == verdict)
        <==> (scope[0], id) in t.roots
  {
    if (scope[0], id) in t.roots {
      LabelledRows(t, scope, id, verdict);
    } else {
      assert CurateTables(t, scope, Label(id, Some(verdict), None), now) == t;
    }
  }
}
