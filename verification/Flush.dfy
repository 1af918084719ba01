/** Flush before commit: the ids that stop a source re-reading a row become durable only
    after a catalog write that carried the row. A row is a pulled line that folds into
    the patterns half and the services half of the catalog. Writes, commits and loads
    may fail, and the process may stop or crash at any point between steps. */
module Flush {
  import opened Common

  type Row = int
  type Rows = set<Row>

  /** Where Persist writes: one blob with both halves, the typed tables, or nowhere. */
  datatype Backend = FileBlob | TypedStore | NoStorage

  datatype Half = Half(memory: Rows, stored: Rows, written: Rows, wiped: Rows)

  /** Both halves with their history (`written` by some successful write, `wiped` by an
      operator reset), the dirty flag, and each source's staged and durable ids. */
  datatype State = State(patterns: Half, services: Half, dirty: bool, staged: seq<Rows>, durable: seq<Rows>)

  const EMPTY_HALF := Half({}, {}, {}, {})

  function Boot(sources: nat): State
  {
    State(EMPTY_HALF, EMPTY_HALF, false, seq(sources, _ => {}), seq(sources, _ => {}))
  }

  // ---- steps -------------------------------------------------------------------------

  function Learnt(h: Half, rows: Rows): Half { h.(memory := h.memory + rows) }

  /** A write of the whole working set: the blob is replaced, the tables are upserted. */
  function WrittenHalf(h: Half, b: Backend): Half
  {
    h.(stored := if b.FileBlob? then h.memory else h.stored + h.memory, written := h.written + h.memory)
  }

  function WipedHalf(h: Half): Half { h.(memory := {}, wiped := h.wiped + h.memory) }

  datatype Flushed = Flushed(state: State, ok: bool)

  /** Catalog.Persist. */
  function PersistStep(s: State, b: Backend, writeOk: bool): Flushed
  {
    if b.NoStorage? || !s.dirty then Flushed(s, true)
    else if !writeOk then Flushed(s, false)
    else Flushed(s.(patterns := WrittenHalf(s.patterns, b), services := WrittenHalf(s.services, b), dirty := false),
        true)
  }

  function CommitOne(s: State, i: nat, ok: bool): State
    requires i < |s.staged| == |s.durable|
  {
    if ok then s.(durable := s.durable[i := s.durable[i] + s.staged[i]], staged := s.staged[i := {}]) else s
  }

  /** Commit the sources in turn; a failing one keeps its ids staged. */
  function Commits(s: State, oks: seq<bool>): (r: State)
    requires |oks| <= |s.staged| == |s.durable|
    ensures |r.staged| == |s.staged| && |r.durable| == |s.durable| && r == s.(staged := r.staged, durable := r.durable)
    decreases |oks|
  {
    if oks == [] then s else CommitOne(Commits(s, oks[..|oks| - 1]), |oks| - 1, oks[|oks| - 1])
  }

  /** Commit each source with its own result, once the flush has succeeded. */
  function FlushThenCommit(s: State, b: Backend, writeOk: bool, oks: seq<bool>): State
    requires |oks| == |s.staged| == |s.durable|
  {
    var f := PersistStep(s, b, writeOk);
    if f.ok then Commits(f.state, oks) else f.state
  }

  /** A pull stages its rows; the batches that Group accepted are learned. */
  function TickStep(s: State, src: nat, rows: Rows, learned: Rows): State
    requires src < |s.staged|
  {
    s.(staged := s.staged[src := s.staged[src] + rows], patterns := Learnt(s.patterns, learned),
      services := Learnt(s.services, learned),
       dirty := s.dirty || learned != {})
  }

  datatype Which = Patterns | Services

  /** ResetPatterns and ResetServices: wipe one half in memory, then make that durable.
      On the typed store the curation clears one half's tables and the dirty flag. */
  function ResetStep(s: State, b: Backend, which: Which, ok: bool): State
  {
    var w := (if which.Patterns? then s.(patterns := WipedHalf(s.patterns))
        else s.(services := WipedHalf(s.services))).(dirty := true);
    if !b.TypedStore? then PersistStep(w, b, ok).state
    else if !ok then w
    else if which.Patterns? then w.(patterns := w.patterns.(stored := {}), dirty := false)
    else w.(services := w.services.(stored := {}), dirty := false)
  }

  /** A new process: the stored halves are read back, or nothing when the load fails. */
  function RestartStep(s: State, loadOk: bool): State
  {
    s.(patterns := s.patterns.(memory := if loadOk then s.patterns.stored else {}),
       services := s.services.(memory := if loadOk then s.services.stored else {}),
       dirty := false, staged := seq(|s.staged|, _ => {}))
  }

  datatype Event =
    | Tick(src: nat, rows: Rows, learned: Rows)
    | PersistTick(writeOk: bool, oks: seq<bool>)
    | Reset(which: Which, ok: bool)
    | Shutdown(writeOk: bool, oks: seq<bool>, loadOk: bool)
    | Crash(loadOk: bool)

  predicate Shaped(s: State, sources: nat) { |s.staged| == |s.durable| == sources }

  predicate Fits(e: Event, sources: nat)
  {
    match e
    case Tick(src, _, _) => src < sources
    case PersistTick(_, oks) => |oks| == sources
    case Reset(_, _) => true
    case Shutdown(_, oks, _) => |oks| == sources
    case Crash(_) => true
  }

  function Next(s: State, b: Backend, sources: nat, e: Event): (r: State)
    requires Shaped(s, sources) && Fits(e, sources)
    ensures Shaped(r, sources)
  {
    match e
    case Tick(src, rows, learned) => TickStep(s, src, rows, learned)
    case PersistTick(writeOk, oks) => FlushThenCommit(s, b, writeOk, oks)
    case Reset(which, ok) => ResetStep(s, b, which, ok)
    case Shutdown(writeOk, oks, loadOk) => RestartStep(FlushThenCommit(s, b, writeOk, oks), loadOk)
    case Crash(loadOk) => RestartStep(s, loadOk)
  }

  function Run(s: State, b: Backend, sources: nat, events: seq<Event>): (r: State)
    requires Shaped(s, sources) && forall e <- events :: Fits(e, sources)
    ensures Shaped(r, sources)
    decreases |events|
  {
    if events == [] then s
    else
      assert events[0] in events;
      Run(Next(s, b, sources, events[0]), b, sources, events[1..])
  }

  // ---- nothing is lost ------------------------------------------------------------------

  predicate LoadsSucceed(events: seq<Event>)
  {
    forall e <- events :: (e.Shutdown? ==> e.loadOk) && (e.Crash? ==> e.loadOk)
  }

  /** What was written is stored or wiped, and what is stored is in memory or wiped. */
  predicate Remembered(h: Half) { h.written <= h.stored + h.wiped && h.stored <= h.memory + h.wiped }

  lemma CommitsRemember(s: State, oks: seq<bool>)
    requires |oks| <= |s.staged| == |s.durable|
    ensures Commits(s, oks).patterns == s.patterns && Commits(s, oks).services == s.services
  {
  }

  lemma NextRemembers(s: State, b: Backend, sources: nat, e: Event)
    requires Shaped(s, sources) && Fits(e, sources) && (e.Shutdown? ==> e.loadOk) && (e.Crash? ==> e.loadOk)
    requires Remembered(s.patterns) && Remembered(s.services)
    ensures Remembered(Next(s, b, sources, e).patterns) && Remembered(Next(s, b, sources, e).services)
  {
    if e.PersistTick? || e.Shutdown? {
      var f := PersistStep(s, b, e.writeOk);
      if f.ok { CommitsRemember(f.state, e.oks); }
    }
  }

  lemma {:induction false} RunRemembers(s: State, b: Backend, sources: nat, events: seq<Event>)
    requires Shaped(s, sources) && (forall e <- events :: Fits(e, sources)) && LoadsSucceed(events)
    requires Remembered(s.patterns) && Remembered(s.services)
    ensures var r := Run(s, b, sources, events); Remembered(r.patterns) && Remembered(r.services)
    decreases |events|
  {
    if events != [] {
      assert events[0] in events && forall e <- events[1..] :: e in events;
      NextRemembers(s, b, sources, events[0]);
      RunRemembers(Next(s, b, sources, events[0]), b, sources, events[1..]);
    }
  }

  /** The point of committing after the flush: wherever a run stops, when nothing durable is
      without its row and the loads succeed, a new process has in memory every row a source
      will not deliver again, but for what an operator wiped. */
  lemma NothingIsLost(b: Backend, sources: nat, events: seq<Event>)
    requires (forall e <- events :: Fits(e, sources)) && LoadsSucceed(events)
        && NoHole(Run(Boot(sources), b, sources, events))
    ensures var r := Next(Run(Boot(sources), b, sources, events), b, sources, Crash(true));
      forall i :: 0 <= i < |r.durable| ==>
        r.durable[i] <= r.patterns.memory + r.patterns.wiped && r.durable[i] <= r.services.memory + r.services.wiped
  {
    RunRemembers(Boot(sources), b, sources, events);
  }

  /** A process whose load failed starts from nothing, so the next flush with something learned
      leaves a blob with that alone, and the tables with what they had besides. */
  lemma FailedLoadOverwrites(s: State, b: Backend, src: nat, rows: Rows, learned: Rows, oks: seq<bool>)
    requires !b.NoStorage? && src < |s.staged| && |oks| == |s.staged| == |s.durable| && learned != {}
    ensures var r := FlushThenCommit(TickStep(RestartStep(s, false), src, rows, learned), b, true, oks);
      && r.patterns.memory == r.services.memory == learned
      && r.patterns.stored == (if b.FileBlob? then learned else s.patterns.stored + learned)
      && r.services.stored == (if b.FileBlob? then learned else s.services.stored + learned)
  {
    var t := TickStep(RestartStep(s, false), src, rows, learned);
    CommitsRemember(PersistStep(t, b, true).state, oks);
  }

  // ---- what holds ----------------------------------------------------------------------

  /** Rows a half has had in a successful write, or an operator wiped from it. */
  function Kept(h: Half): Rows { h.written + h.wiped }

  predicate HalfOk(h: Half, dirty: bool)
  {
    h.stored <= h.written && (!dirty ==> h.memory <= h.written)
  }

  predicate Accounted(s: State, rows: Rows)
  {
    rows <= s.patterns.memory + Kept(s.patterns) && rows <= s.services.memory + Kept(s.services)
  }

  /** Every durable id names a row some successful write of each half contained, or an
      operator wiped from it. */
  predicate NoHole(s: State)
  {
    forall i :: 0 <= i < |s.durable| ==> s.durable[i] <= Kept(s.patterns) && s.durable[i] <= Kept(s.services)
  }

  predicate Inv(s: State)
  {
    && HalfOk(s.patterns, s.dirty) && HalfOk(s.services, s.dirty)
    && (forall i :: 0 <= i < |s.staged| ==> Accounted(s, s.staged[i]))
    && NoHole(s)
  }

  /** A step that follows the protocol: Group failed on no batch, and a reset on the
      typed store leaves no unwritten row in the other half. */
  predicate Keeps(s: State, b: Backend, e: Event)
  {
    match e
    case Tick(_, rows, learned) => rows == learned
    case Reset(which, ok) => b.TypedStore? && ok ==> Clean(if which.Patterns? then s.services else s.patterns)
    case _ => true
  }

  predicate Clean(h: Half) { h.memory <= h.written }

  lemma {:induction false} CommitsKeep(s: State, oks: seq<bool>)
    requires |oks| <= |s.staged| == |s.durable| && Inv(s) && !s.dirty
    ensures Inv(Commits(s, oks))
    decreases |oks|
  {
    if oks != [] {
      CommitsKeep(s, oks[..|oks| - 1]);
    }
  }

  lemma PersistKeeps(s: State, b: Backend, writeOk: bool)
    requires Inv(s) && !b.NoStorage?
    ensures Inv(PersistStep(s, b, writeOk).state)
    ensures PersistStep(s, b, writeOk).ok ==> !PersistStep(s, b, writeOk).state.dirty
  {
  }

  lemma FlushKeeps(s: State, b: Backend, writeOk: bool, oks: seq<bool>)
    requires Inv(s) && !b.NoStorage? && |oks| == |s.staged| == |s.durable|
    ensures Inv(FlushThenCommit(s, b, writeOk, oks))
  {
    PersistKeeps(s, b, writeOk);
    if PersistStep(s, b, writeOk).ok { CommitsKeep(PersistStep(s, b, writeOk).state, oks); }
  }

  lemma NextKeeps(s: State, b: Backend, sources: nat, e: Event)
    requires Inv(s) && Shaped(s, sources) && Fits(e, sources) && !b.NoStorage? && Keeps(s, b, e)
    ensures Inv(Next(s, b, sources, e))
  {
    match e
    case Tick(src, rows, learned) =>
    case PersistTick(writeOk, oks) => FlushKeeps(s, b, writeOk, oks);
    case Reset(which, ok) =>
    case Shutdown(writeOk, oks, loadOk) =>
      FlushKeeps(s, b, writeOk, oks);
    case Crash(loadOk) =>
  }

  predicate KeepsAll(s: State, b: Backend, sources: nat, events: seq<Event>)
    requires Shaped(s, sources) && forall e <- events :: Fits(e, sources)
    decreases |events|
  {
    events == [] ||
      (assert events[0] in events;
       Keeps(s, b, events[0]) && KeepsAll(Next(s, b, sources, events[0]), b, sources, events[1..]))
  }

  /** Over every run of ticks, flushes, commits, resets, shutdowns, crashes and restarts
      that keeps the protocol, no id is durable before its row. */
  lemma {:induction false} FlushBeforeCommit(s: State, b: Backend, sources: nat, events: seq<Event>)
    requires Inv(s) && Shaped(s, sources) && (forall e <- events :: Fits(e, sources)) && !b.NoStorage?
    requires KeepsAll(s, b, sources, events)
    ensures Inv(Run(s, b, sources, events))
    decreases |events|
  {
    if events != [] {
      assert events[0] in events;
      NextKeeps(s, b, sources, events[0]);
      FlushBeforeCommit(Next(s, b, sources, events[0]), b, sources, events[1..]);
    }
  }

  // ---- where it does not --------------------------------------------------------------

  /** On the typed store a successful reset of one half keeps the invariant exactly when
      the other half has nothing unwritten: the reset clears a dirty flag that also
      stood for the other half. */
  lemma StoreResetKeepsIff(s: State, which: Which)
    requires Inv(s) && |s.staged| == |s.durable|
    ensures Inv(ResetStep(s, TypedStore, which, true)) <==> Clean(if which.Patterns? then s.services else s.patterns)
  {
    var r := ResetStep(s, TypedStore, which, true);
    assert Inv(r) ==> HalfOk(r.patterns, false) && HalfOk(r.services, false);
    if Clean(if which.Patterns? then s.services else s.patterns) {
      NextKeeps(s, TypedStore, |s.staged|, Reset(which, true));
    }
  }

  /** A tick keeps the invariant exactly when each row it staged is learned or already
      accounted for; a batch that Group refuses leaves its rows staged. */
  lemma TickKeepsIff(s: State, src: nat, rows: Rows, learned: Rows)
    requires Inv(s) && src < |s.staged|
    ensures Inv(TickStep(s, src, rows, learned)) <==> Accounted(TickStep(s, src, {}, learned), rows)
  {
    var r := TickStep(s, src, rows, learned);
    assert r.staged[src] == s.staged[src] + rows;
    if Inv(r) { assert Accounted(r, r.staged[src]); }
  }

  // ---- exactly when a flush opens a hole ----------------------------------------------------

  /** What a half will have kept once a flush has gone through. */
  function KeptAfter(h: Half, dirty: bool): Rows { if dirty then Kept(h) + h.memory else Kept(h) }

  /** The rows a source is about to commit are kept in both halves by then. */
  predicate SafeToCommit(s: State, rows: Rows)
  {
    rows <= KeptAfter(s.patterns, s.dirty) && rows <= KeptAfter(s.services, s.dirty)
  }

  lemma {:induction false} CommitsShape(s: State, oks: seq<bool>, i: nat)
    requires |oks| <= |s.staged| == |s.durable| && i < |s.staged|
    ensures Commits(s, oks).durable[i] == s.durable[i] + if i < |oks| && oks[i] then s.staged[i] else {}
    ensures i >= |oks| ==> Commits(s, oks).staged[i] == s.staged[i]
    decreases |oks|
  {
    if oks != [] { CommitsShape(s, oks[..|oks| - 1], i); }
  }

  /** From a state without a hole, a flush and its commits open one exactly when they go
      ahead and some source then commits a row that neither half will have kept: one that
      is neither written nor wiped, nor - in a dirty catalog - about to be written. */
  lemma FlushKeepsNoHoleIff(s: State, b: Backend, writeOk: bool, oks: seq<bool>)
    requires NoHole(s) && !b.NoStorage? && |oks| == |s.staged| == |s.durable|
    ensures NoHole(FlushThenCommit(s, b, writeOk, oks)) <==>
      (PersistStep(s, b, writeOk).ok ==> forall i :: 0 <= i < |oks| && oks[i] ==> SafeToCommit(s, s.staged[i]))
  {
    var f := PersistStep(s, b, writeOk);
    if f.ok {
      var r := Commits(f.state, oks);
      assert Kept(f.state.patterns) == KeptAfter(s.patterns, s.dirty)
          && Kept(f.state.services) == KeptAfter(s.services, s.dirty);
      forall i | 0 <= i < |oks| ensures r.durable[i] == s.durable[i] + if oks[i] then s.staged[i] else {} {
        CommitsShape(f.state, oks, i);
      }
      if forall i :: 0 <= i < |oks| && oks[i] ==> SafeToCommit(s, s.staged[i]) {
        forall i | 0 <= i < |r.durable| ensures r.durable[i] <= Kept(r.patterns) && r.durable[i] <= Kept(r.services) { }
      }
      if NoHole(r) {
        forall i | 0 <= i < |oks| && oks[i] ensures SafeToCommit(s, s.staged[i]) {
          assert r.durable[i] <= Kept(r.patterns) && r.durable[i] <= Kept(r.services);
        }
      }
    }
  }

  /** The flushes of a step: the ones where a hole can open. */
  predicate StepSafe(s: State, b: Backend, e: Event)
  {
    match e
    case PersistTick(writeOk, oks) => FlushSafe(s, b, writeOk, oks)
    case Shutdown(writeOk, oks, _) => FlushSafe(s, b, writeOk, oks)
    case _ => true
  }

  predicate FlushSafe(s: State, b: Backend, writeOk: bool, oks: seq<bool>)
  {
    PersistStep(s, b, writeOk).ok ==> forall i :: 0 <= i < |oks| && i < |s.staged| && oks[i] ==>
      SafeToCommit(s, s.staged[i])
  }

  /** No other step opens a hole, whatever Group refuses and whatever a reset wipes. */
  lemma StepKeepsNoHoleIff(s: State, b: Backend, sources: nat, e: Event)
    requires NoHole(s) && !b.NoStorage? && Shaped(s, sources) && Fits(e, sources)
    ensures NoHole(Next(s, b, sources, e)) <==> StepSafe(s, b, e)
  {
    match e
    case PersistTick(writeOk, oks) => FlushKeepsNoHoleIff(s, b, writeOk, oks);
    case Shutdown(writeOk, oks, loadOk) => FlushKeepsNoHoleIff(s, b, writeOk, oks);
    case Tick(_, _, _) =>
    case Reset(which, ok) =>
    case Crash(_) =>
  }

  predicate NeverHole(s: State, b: Backend, sources: nat, events: seq<Event>)
    requires Shaped(s, sources) && forall e <- events :: Fits(e, sources)
    decreases |events|
  {
    NoHole(s) && (events == [] ||
      (assert events[0] in events; NeverHole(Next(s, b, sources, events[0]), b, sources, events[1..])))
  }

  predicate AllSafe(s: State, b: Backend, sources: nat, events: seq<Event>)
    requires Shaped(s, sources) && forall e <- events :: Fits(e, sources)
    decreases |events|
  {
    events == [] ||
      (assert events[0] in events;
       StepSafe(s, b, events[0]) && AllSafe(Next(s, b, sources, events[0]), b, sources, events[1..]))
  }

  /** Over every run at all, no id is ever durable before its row exactly when each flush
      that goes ahead commits only rows kept by then. */
  lemma {:induction false} NeverHoleIff(s: State, b: Backend, sources: nat, events: seq<Event>)
    requires NoHole(s) && !b.NoStorage? && Shaped(s, sources) && forall e <- events :: Fits(e, sources)
    ensures NeverHole(s, b, sources, events) <==> AllSafe(s, b, sources, events)
    decreases |events|
  {
    if events != [] {
      assert events[0] in events;
      var n := Next(s, b, sources, events[0]);
      StepKeepsNoHoleIff(s, b, sources, events[0]);
      if NoHole(n) { NeverHoleIff(n, b, sources, events[1..]); }
    }
  }

  /** A row that is staged and in neither half's record or memory is made durable by the
      next flush that goes ahead, whether or not the catalog is dirty. */
  lemma HoleBecomesDurable(s: State, b: Backend, i: nat, row: Row, oks: seq<bool>)
    requires NoHole(s) && !b.NoStorage? && |oks| == |s.staged| == |s.durable| && i < |oks| && oks[i]
        && row in s.staged[i]
    requires row !in KeptAfter(s.patterns, s.dirty) || row !in KeptAfter(s.services, s.dirty)
    ensures !NoHole(FlushThenCommit(s, b, true, oks))
  {
    FlushKeepsNoHoleIff(s, b, true, oks);
  }

  /** One line, one reset, one quiet flush: the line's id is durable, its service was
      never written. */
  lemma StoreResetCounterexample()
    ensures !NoHole(Run(Boot(1), TypedStore, 1, [Tick(0, {7}, {7}), Reset(Patterns, true), PersistTick(true, [true])]))
  {
    var t := Next(Boot(1), TypedStore, 1, Tick(0, {7}, {7}));
    var r := Next(t, TypedStore, 1, Reset(Patterns, true));
    var p := PersistTick(true, [true]);
    HoleBecomesDurable(r, TypedStore, 0, 7, [true]);
    var es := [Tick(0, {7}, {7}), Reset(Patterns, true), p];
    assert es[1..] == [Reset(Patterns, true), p] && es[1..][1..] == [p] && es[1..][1..][1..] == [];
    assert Run(r, TypedStore, 1, [p]) == Next(r, TypedStore, 1, p);
  }

  /** A tick whose first batch is learned and whose second is refused, and the next flush:
      the catalog is dirty, the learned row is written, the refused one is not. It takes a
      brain whose Group can fail. */
  lemma GroupErrorCounterexample(b: Backend)
    requires !b.NoStorage?
    ensures !NoHole(Run(Boot(1), b, 1, [Tick(0, {7, 8}, {7}), PersistTick(true, [true])]))
  {
    var t := Next(Boot(1), b, 1, Tick(0, {7, 8}, {7}));
    var p := PersistTick(true, [true]);
    assert t.dirty && 8 in t.staged[0];
    HoleBecomesDurable(t, b, 0, 8, [true]);
    var es := [Tick(0, {7, 8}, {7}), p];
    assert es[1..] == [p] && es[1..][1..] == [];
    assert Run(t, b, 1, [p]) == Next(t, b, 1, p);
  }

  /** With nowhere to write, Persist still reports success, so a commit follows. */
  lemma NoStorageCounterexample()
    ensures !NoHole(Run(Boot(1), NoStorage, 1, [Tick(0, {7}, {7}), PersistTick(true, [true])]))
  {
    var t := Next(Boot(1), NoStorage, 1, Tick(0, {7}, {7}));
    var p := PersistTick(true, [true]);
    var es := [Tick(0, {7}, {7}), p];
    assert es[1..] == [p] && es[1..][1..] == [];
    assert Run(t, NoStorage, 1, [p]) == Next(t, NoStorage, 1, p);
    CommitsShape(t, [true], 0);
    assert 7 in t.staged[0];
  }
}
