/** Whole-catalog resets over runs of a fleet: nothing learned before a reset is
    ever counted again, although the lower-scope rows stay in the tables. */
module CatalogReset {
  import opened Common
  import opened Patterns
  import opened CatalogTables
  import opened CatalogQueries
  import opened CatalogPaging

  lemma AfterResetOnlyShadows(t: Tables, scope: seq<Org>, now: int, id: Id)
    requires ValidScope(scope)
    ensures var c := ChosenRoot(ResetPatternTables(t, scope, now), scope, id);
      c.None? || (c.value.0 == scope[0] && c.value.1.deleted && c.value.1.resetShadow)
  {
    assert forall k <- t.roots :: k.0 in scope && k.0 != scope[0] ==> k.1 in LegacyIds(t, scope);
  }

  /** Right after ResetPatterns every read of the scope is empty. */
  lemma ResetEmptiesEveryRead(t: Tables, scope: seq<Org>, now: int)
    requires ValidScope(scope)
    ensures Snapshot(ResetPatternTables(t, scope, now), scope) == map[]
    ensures forall inst :: Load(ResetPatternTables(t, scope, now), scope, inst) == map[]
    ensures forall id :: Lookup(ResetPatternTables(t, scope, now), scope, id) == None
  {
    var u := ResetPatternTables(t, scope, now);
    forall id ensures SnapshotRow(u, scope, id).None? && forall inst :: LoadRow(u, scope, inst, id).None? {
      AfterResetOnlyShadows(t, scope, now, id);
    }
    assert Snapshot(u, scope).Keys == {};
    forall inst: int ensures Load(u, scope, inst) == map[] {
      assert Load(u, scope, inst).Keys == {};
    }
    forall id ensures Lookup(u, scope, id) == None {
      LookupAgreesWithSnapshot(u, scope, id);
    }
  }

  /** ... and so are the count and every page. */
  lemma ResetEmptiesEveryPage(t: Tables, scope: seq<Org>, now: int, search: string, service: string, offset: int,
                              limit: int)
    requires ValidScope(scope)
    ensures Count(ResetPatternTables(t, scope, now), scope, search, service) == 0
    ensures SqlPage(ResetPatternTables(t, scope, now), scope, search, service, offset, limit) == []
  {
    var u := ResetPatternTables(t, scope, now);
    ResetEmptiesEveryRead(t, scope, now);
    CountAndPageAgreeWithSnapshot(u, scope, search, service);
    assert Filtered(map[], search, service) == map[];
    ListingSize(ListingOf(map[]), map[]);
  }

  // ---- what a run wrote -----------------------------------------------------------------

  predicate Writes(s: Step, key: LogKey)
    requires ValidStep(s)
  {
    s.Persist? && s.w.scope[0] == key.0 && s.w.instance == key.2 && key.1 in s.ps
  }

  /** The pattern the last Persist of a run wrote into one learned row, if any did. */
  ghost function LastWrite(steps: seq<Step>, key: LogKey): Option<Pattern>
    requires forall s <- steps :: ValidStep(s)
  {
    if steps == [] then None
    else
      var s := steps[|steps| - 1];
      if Writes(s, key) then Some(s.ps[key.1]) else LastWrite(steps[..|steps| - 1], key)
  }

  /** The learned content a row took from a pattern. */
  predicate RowOf(row: LogRow, p: Pattern)
  {
    row.count == p.count && row.template == p.template && row.baselineFrequency == p.baselineFrequency
    && row.baselineVariance == p.baselineVariance && row.baselineAvg == p.baselineAvg && row.samples == p.samples
  }

  ghost predicate Fresh(t: Tables, done: seq<Step>, k: LogKey)
    requires k in t.logs && forall s <- done :: ValidStep(s)
  {
    LastWrite(done, k).Some? && RowOf(t.logs[k], LastWrite(done, k).value)
  }

  /** A lower-scope row from before the reset, hidden by the write org's root. */
  ghost predicate Stale(t: Tables, scope: seq<Org>, reset: int, k: LogKey)
    requires k in t.logs && ValidScope(scope)
  {
    && k.0 != scope[0] && t.logs[k].persistedAt <= reset
    && (scope[0], k.1) in t.roots
    && t.roots[(scope[0], k.1)].resetAt.Some? && reset <= t.roots[(scope[0], k.1)].resetAt.value
  }

  ghost predicate FreshOrStale(t: Tables, scope: seq<Org>, reset: int, done: seq<Step>)
    requires ValidScope(scope) && forall s <- done :: ValidStep(s)
  {
    forall k <- t.logs | k.0 in scope :: Fresh(t, done, k) || Stale(t, scope, reset, k)
  }

  /** Any further reset by a store of the same write org covers at least this scope:
      stores of one fleet share their read scope. */
  ghost predicate ResetCovers(s: Step, scope: seq<Org>)
    requires ValidScope(scope)
  {
    s.Curate? && s.edit.ResetPatterns? && ValidScope(s.scope) && s.scope[0] == scope[0] ==>
      forall o <- scope :: o in s.scope
  }

  lemma LastWriteStep(done: seq<Step>, s: Step, k: LogKey)
    requires ValidStep(s) && forall d <- done :: ValidStep(d)
    ensures LastWrite(done + [s], k) == if Writes(s, k) then Some(s.ps[k.1]) else LastWrite(done, k)
  {
    assert (done + [s])[..|done|] == done;
  }

  lemma ResetStepKeeps(t: Tables, scope: seq<Org>, reset: int, done: seq<Step>, s: Step, k: LogKey)
    requires ValidScope(scope) && ValidStep(s) && forall d <- done :: ValidStep(d)
    requires FreshOrStale(t, scope, reset, done) && ForeignKey(t) && reset <= s.now && ResetCovers(s, scope)
    requires s.Curate? && s.edit.ResetPatterns? && k in Apply(t, s).logs && k.0 in scope
    ensures Fresh(Apply(t, s), done + [s], k) || Stale(Apply(t, s), scope, reset, k)
  {
    LastWriteStep(done, s, k);
    assert k in t.logs;
    if s.scope[0] == scope[0] {
      assert (k.0, k.1) in t.roots && k.1 in LegacyIds(t, s.scope);
      assert (scope[0], k.1) in Apply(t, s).roots;
    }
  }

  lemma StepKeeps(t: Tables, scope: seq<Org>, reset: int, done: seq<Step>, s: Step)
    requires ValidScope(scope) && ValidStep(s) && forall d <- done :: ValidStep(d)
    requires FreshOrStale(t, scope, reset, done) && ForeignKey(t) && reset <= s.now && ResetCovers(s, scope)
    ensures forall d <- done + [s] :: ValidStep(d)
    ensures FreshOrStale(Apply(t, s), scope, reset, done + [s])
  {
    var u := Apply(t, s);
    forall k | k in u.logs && k.0 in scope
      ensures Fresh(u, done + [s], k) || Stale(u, scope, reset, k) {
      if s.Curate? && s.edit.ResetPatterns? {
        ResetStepKeeps(t, scope, reset, done, s, k);
      } else if s.Persist? {
        PersistStepKeeps(t, scope, reset, done, s, k);
      } else {
        EditStepKeeps(t, scope, reset, done, s, k);
      }
    }
  }

  lemma PersistStepKeeps(t: Tables, scope: seq<Org>, reset: int, done: seq<Step>, s: Step, k: LogKey)
    requires ValidScope(scope) && ValidStep(s) && forall d <- done :: ValidStep(d)
    requires FreshOrStale(t, scope, reset, done) && s.Persist? && k in Apply(t, s).logs && k.0 in scope
    ensures Fresh(Apply(t, s), done + [s], k) || Stale(Apply(t, s), scope, reset, k)
  {
    LastWriteStep(done, s, k);
    if !Writes(s, k) {
      assert k in t.logs && Apply(t, s).logs[k] == t.logs[k];
    }
  }

  lemma EditStepKeeps(t: Tables, scope: seq<Org>, reset: int, done: seq<Step>, s: Step, k: LogKey)
    requires ValidScope(scope) && ValidStep(s) && forall d <- done :: ValidStep(d)
    requires FreshOrStale(t, scope, reset, done) && s.Curate? && !s.edit.ResetPatterns? && k in Apply(t, s).logs
        && k.0 in scope
    ensures Fresh(Apply(t, s), done + [s], k) || Stale(Apply(t, s), scope, reset, k)
  {
    LastWriteStep(done, s, k);
    EditKeepsRoot(t, s.scope, s.edit, s.now, (scope[0], k.1));
    assert Apply(t, s).logs == t.logs;
  }

  lemma {:induction false} RunKeeps(t: Tables, scope: seq<Org>, reset: int, done: seq<Step>, steps: seq<Step>, now: int)
    requires ValidScope(scope) && forall d <- done :: ValidStep(d)
    requires FreshOrStale(t, scope, reset, done) && Sound(t, now) && reset <= now && ValidRun(steps, now)
    requires forall s <- steps :: ResetCovers(s, scope)
    ensures forall d <- done + steps :: ValidStep(d)
    ensures FreshOrStale(Run(t, steps, now), scope, reset, done + steps)
    decreases |steps|
  {
    if steps == [] {
      assert done + steps == done;
    } else {
      var s := steps[0];
      StepKeeps(t, scope, reset, done, s);
      ApplySound(t, s, now);
      RunKeeps(Apply(t, s), scope, reset, done + [s], steps[1..], s.now);
      assert done + [s] + steps[1..] == done + steps;
    }
  }

  lemma {:induction false} ValidRunSteps(steps: seq<Step>, now: int)
    requires ValidRun(steps, now)
    ensures forall s <- steps :: ValidStep(s)
    decreases |steps|
  {
    if steps != [] { ValidRunSteps(steps[1..], steps[0].now); }
  }

  /** Right after a reset every learned row left in the scope is a hidden one. */
  lemma ResetLeavesStale(t: Tables, scope: seq<Org>, reset: int)
    requires ValidScope(scope) && Sound(t, reset)
    ensures FreshOrStale(ResetPatternTables(t, scope, reset), scope, reset, [])
  {
    var u := ResetPatternTables(t, scope, reset);
    forall k | k in u.logs && k.0 in scope ensures Stale(u, scope, reset, k) {
      assert (k.0, k.1) in t.roots && k.1 in LegacyIds(t, scope);
      assert (scope[0], k.1) in u.roots;
    }
  }

  /** After a reset and any later run of any writers, each learned row a read of the
      scope may count was written by a Persist of that run, and holds what the last
      such Persist put there. */
  lemma OnlyRowsPersistedAfterReset(t: Tables, scope: seq<Org>, reset: int, steps: seq<Step>, id: Id, inst: int)
    requires ValidScope(scope) && Sound(t, reset) && ValidRun(steps, reset)
    requires forall s <- steps :: ResetCovers(s, scope)
    requires LogChosen(Run(ResetPatternTables(t, scope, reset), steps, reset), scope, id, inst)
    ensures forall s <- steps :: ValidStep(s)
    ensures var row := RankedLog(Run(ResetPatternTables(t, scope, reset), steps, reset), scope, id, inst).value;
      var last := LastWrite(steps, (row.0, id, inst));
      last.Some? && RowOf(row.1, last.value)
  {
    var t0 := ResetPatternTables(t, scope, reset);
    ValidRunSteps(steps, reset);
    ResetLeavesStale(t, scope, reset);
    ResetPatternsSound(t, scope, reset, reset);
    RunKeeps(t0, scope, reset, [], steps, reset);
    assert [] + steps == steps;
    var k := (RankedLog(Run(t0, steps, reset), scope, id, inst).value.0, id, inst);
    assert k in Run(t0, steps, reset).logs && k.0 in scope;
  }

  /** What the run's Persists wrote for the partitions a read counts. */
  ghost function WrittenCounts(u: Tables, scope: seq<Org>, id: Id, steps: seq<Step>): map<int, int>
    requires forall s <- steps :: ValidStep(s)
  {
    map i <- ChosenLogs(u, scope, id) :: WrittenCount(u, scope, id, steps, i)
  }

  ghost function WrittenCount(u: Tables, scope: seq<Org>, id: Id, steps: seq<Step>, i: int): int
    requires forall s <- steps :: ValidStep(s)
    requires LogChosen(u, scope, id, i)
  {
    match LastWrite(steps, (RankedLog(u, scope, id, i).value.0, id, i))
    case Some(p) => p.count
    case None => 0
  }

  lemma SnapshotSumsWritten(u: Tables, scope: seq<Org>, id: Id, steps: seq<Step>)
    requires forall s <- steps :: ValidStep(s)
    requires id in Snapshot(u, scope)
    requires forall i :: LogChosen(u, scope, id, i) ==>
        RankedLog(u, scope, id, i).value.1.count == WrittenCount(u, scope, id, steps, i)
    ensures Snapshot(u, scope)[id].count == SumInt(WrittenCounts(u, scope, id, steps))
  {
    var rows := ChosenLogs(u, scope, id);
    SnapshotCountIsSum(u, scope, id);
    CountsEqual(rows, WrittenCounts(u, scope, id, steps));
  }

  /** The fleet count reported after a reset is the sum of counts persisted since it. */
  lemma SnapshotCountsOnlyAfterReset(t: Tables, scope: seq<Org>, reset: int, steps: seq<Step>, id: Id)
    requires ValidScope(scope) && Sound(t, reset) && ValidRun(steps, reset)
    requires forall s <- steps :: ResetCovers(s, scope)
    requires id in Snapshot(Run(ResetPatternTables(t, scope, reset), steps, reset), scope)
    ensures forall s <- steps :: ValidStep(s)
    ensures var u := Run(ResetPatternTables(t, scope, reset), steps, reset);
      Snapshot(u, scope)[id].count == SumInt(WrittenCounts(u, scope, id, steps))
  {
    ValidRunSteps(steps, reset);
    var u := Run(ResetPatternTables(t, scope, reset), steps, reset);
    forall i: int | LogChosen(u, scope, id, i)
      ensures RankedLog(u, scope, id, i).value.1.count == WrittenCount(u, scope, id, steps, i) {
      OnlyRowsPersistedAfterReset(t, scope, reset, steps, id, i);
    }
    SnapshotSumsWritten(u, scope, id, steps);
  }

  // ---- a reset by a store that sees less -------------------------------------------------

  /** The tables without an organization's own roots and rows. */
  function WithoutOrg(t: Tables, o: Org): Tables
  {
    t.(roots := map k <- t.roots.Keys | k.0 != o :: t.roots[k], logs := map k <- t.logs.Keys | k.0 != o :: t.logs[k])
  }

  lemma ResetSparesOthers(t: Tables, narrow: seq<Org>, now: int, id: Id)
    requires ValidScope(narrow) && id !in LegacyIds(t, narrow)
    ensures AgreeOn(WithoutOrg(t, narrow[0]), ResetPatternTables(t, narrow, now), id)
  {
  }

  /** A reset only shadows the ids its own scope sees. To a store of the same write org
      that sees more, an id shows after it exactly when the resetting store does not see a
      lower root of it and the rows of the other orgs alone show it. */
  lemma NarrowResetShowsIff(t: Tables, narrow: seq<Org>, wide: seq<Org>, now: int, id: Id)
    requires ValidScope(narrow) && ValidScope(wide) && narrow[0] == wide[0]
    ensures id in Snapshot(ResetPatternTables(t, narrow, now), wide)
            <==> id !in LegacyIds(t, narrow) && id in Snapshot(WithoutOrg(t, wide[0]), wide)
  {
    var u := ResetPatternTables(t, narrow, now);
    if id in LegacyIds(t, narrow) {
      assert (wide[0], id) in u.roots && u.roots[(wide[0], id)].deleted;
    } else {
      ResetSparesOthers(t, narrow, now, id);
      SameReads(WithoutOrg(t, wide[0]), u, wide, id);
    }
  }

  /** So a reset by a store that reads its write org alone undoes a wider one: every id the
      lower orgs show is hidden by the first and back after the second. */
  lemma NarrowResetUndoesWide(t: Tables, wide: seq<Org>, now: int, later: int, id: Id)
    requires ValidScope(wide) && id in Snapshot(WithoutOrg(t, wide[0]), wide)
    ensures var reset := ResetPatternTables(t, wide, now);
      id !in Snapshot(reset, wide) && id in Snapshot(ResetPatternTables(reset, [wide[0]], later), wide)
  {
    var reset := ResetPatternTables(t, wide, now);
    ResetEmptiesEveryRead(t, wide, now);
    NarrowResetShowsIff(reset, [wide[0]], wide, later, id);
    NothingBelow(reset, wide[0]);
    ResetLeavesOthers(t, wide, now, id);
    SameReads(WithoutOrg(t, wide[0]), WithoutOrg(reset, wide[0]), wide, id);
  }

  lemma NothingBelow(t: Tables, o: Org)
    ensures LegacyIds(t, [o]) == {}
  {
  }

  lemma ResetLeavesOthers(t: Tables, wide: seq<Org>, now: int, id: Id)
    requires ValidScope(wide)
    ensures AgreeOn(WithoutOrg(t, wide[0]), WithoutOrg(ResetPatternTables(t, wide, now), wide[0]), id)
  {
  }
}
