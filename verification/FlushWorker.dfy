/** The worker's flush path on its objects: the catalog with its dirty flag, and the
    sources that stage delivery state. Each method takes the step of Flush; whether a
    write or a commit succeeds is an input. */
module FlushWorker {
  import opened Flush

  class Catalog {
    const backend: Backend
    var patterns: Half
    var services: Half
    var dirty: bool

    constructor (b: Backend)
      ensures backend == b && patterns == services == EMPTY_HALF && !dirty
    {
      backend, patterns, services, dirty := b, EMPTY_HALF, EMPTY_HALF, false;
    }

    /** Flush the working set when it is dirty; false when the write failed. */
    method Persist(writeOk: bool) returns (ok: bool)
      modifies this
      ensures forall st: seq<Rows>, du: seq<Rows> ::
        PersistStep(State(old(patterns), old(services), old(dirty), st, du), backend, writeOk)
        == Flushed(State(patterns, services, dirty, st, du), ok)
    {
      if backend.NoStorage? || !dirty {
        return true;
      }
      if !writeOk {
        return false;
      }
      patterns, services, dirty := WrittenHalf(patterns, backend), WrittenHalf(services, backend), false;
      ok := true;
    }

    /** ResetPatterns. */
    method ResetPatterns(curateOk: bool)
      modifies this
      ensures forall st: seq<Rows>, du: seq<Rows> ::
        ResetStep(State(old(patterns), old(services), old(dirty), st, du), backend, Patterns, curateOk)
          == State(patterns, services, dirty, st, du)
    {
      patterns, dirty := WipedHalf(patterns), true;
      if backend.TypedStore? {
        if curateOk {
          patterns, dirty := patterns.(stored := {}), false;
        }
        return;
      }
      var _ := Persist(curateOk);
    }

    /** ResetServices. */
    method ResetServices(curateOk: bool)
      modifies this
      ensures forall st: seq<Rows>, du: seq<Rows> ::
        ResetStep(State(old(patterns), old(services), old(dirty), st, du), backend, Services, curateOk)
          == State(patterns, services, dirty, st, du)
    {
      services, dirty := WipedHalf(services), true;
      if backend.TypedStore? {
        if curateOk {
          services, dirty := services.(stored := {}), false;
        }
        return;
      }
      var _ := Persist(curateOk);
    }
  }

  class Source {
    var staged: Rows
    var durable: Rows

    constructor ()
      ensures staged == durable == {}
    {
      staged, durable := {}, {};
    }

    /** A failing commit keeps the ids staged for the next one. */
    method Commit(ok: bool)
      modifies this
      ensures if ok then durable == old(durable) + old(staged) && staged == {}
          else durable == old(durable) && staged == old(staged)
    {
      if ok {
        durable, staged := durable + staged, {};
      }
    }
  }

  class Worker {
    const catalog: Catalog
    const sources: seq<Source>

    ghost predicate Valid()
    {
      forall i, j :: 0 <= i < j < |sources| ==> sources[i] != sources[j]
    }

    ghost function Staged(): seq<Rows>
      reads sources
    {
      seq(|sources|, i requires 0 <= i < |sources| reads sources => sources[i].staged)
    }

    ghost function Durable(): seq<Rows>
      reads sources
    {
      seq(|sources|, i requires 0 <= i < |sources| reads sources => sources[i].durable)
    }

    ghost function Abstract(): State
      reads catalog, sources
    {
      State(catalog.patterns, catalog.services, catalog.dirty, Staged(), Durable())
    }

    constructor (b: Backend, sources: seq<Source>)
      requires forall i, j :: 0 <= i < j < |sources| ==> sources[i] != sources[j]
      requires forall s <- sources :: s.staged == s.durable == {}
      ensures Valid() && fresh(catalog) && catalog.backend == b && this.sources == sources
          && Abstract() == Boot(|sources|)
    {
      catalog := new Catalog(b);
      this.sources := sources;
      new;
      assert Staged() == seq(|sources|, _ => {}) == Durable();
    }

    /** Let every source make its staged ids durable; a failure does not stop the rest. */
    method CommitSources(oks: seq<bool>)
      requires Valid() && |oks| == |sources|
      modifies sources
      ensures Abstract() == Commits(old(Abstract()), oks)
    {
      ghost var s0 := Abstract();
      var i := 0;
      while i < |sources|
        invariant 0 <= i <= |sources|
        invariant Abstract() == Commits(s0, oks[..i])
      {
        ghost var before := Abstract();
        sources[i].Commit(oks[i]);
        assert oks[..i + 1][..i] == oks[..i];
        assert Staged() == CommitOne(before, i, oks[i]).staged;
        assert Durable() == CommitOne(before, i, oks[i]).durable;
        i := i + 1;
      }
      assert oks[..|sources|] == oks;
    }

    /** The persist ticker: flush when dirty, then commit only if nothing failed. */
    method PersistTick(writeOk: bool, oks: seq<bool>)
      requires Valid() && |oks| == |sources|
      modifies catalog, sources
      ensures Abstract() == FlushThenCommit(old(Abstract()), catalog.backend, writeOk, oks)
    {
      ghost var s0 := Abstract();
      var flushed := true;
      if catalog.dirty {
        flushed := catalog.Persist(writeOk);
      }
      assert Staged() == s0.staged && Durable() == s0.durable;
      assert Flushed(Abstract(), flushed) == PersistStep(s0, catalog.backend, writeOk);
      if flushed {
        CommitSources(oks);
      }
    }

    /** The shutdown flush: the same order, whether or not the catalog is dirty. */
    method Shutdown(writeOk: bool, oks: seq<bool>)
      requires Valid() && |oks| == |sources|
      modifies catalog, sources
      ensures Abstract() == FlushThenCommit(old(Abstract()), catalog.backend, writeOk, oks)
    {
      ghost var s0 := Abstract();
      var flushed := catalog.Persist(writeOk);
      assert Staged() == s0.staged && Durable() == s0.durable;
      assert Flushed(Abstract(), flushed) == PersistStep(s0, catalog.backend, writeOk);
      if flushed {
        CommitSources(oks);
      }
    }
  }
}
