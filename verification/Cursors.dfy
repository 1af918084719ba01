/** The poll position of each source: a cursor store with an optional remote half that
    may fail, and the worker's tick that loads a cursor, hands a pull over in batches
    and records the new cursor only when every batch went through. */
module Cursors {
  import opened Common

  /** The cursors in memory and on the remote side. */
  datatype Cursors = Cursors(mem: map<string, int>, remote: map<string, int>)

  /** The remote cursor when it can be read, else the one in memory. */
  function Lookup(c: Cursors, hasRemote: bool, name: string, getOk: bool): Option<int>
  {
    if hasRemote && getOk && name in c.remote then Some(c.remote[name])
    else if name in c.mem then Some(c.mem[name])
    else None
  }

  /** Memory always takes the cursor; the remote write may fail. */
  function AfterSet(c: Cursors, hasRemote: bool, name: string, t: int, setOk: bool): Cursors
  {
    Cursors(c.mem[name := t], if hasRemote && setOk then c.remote[name := t] else c.remote)
  }

  /** Where a source resumes: its cursor unless it lies in the future, else the lookback window. */
  function Resume(c: Cursors, hasRemote: bool, lookback: nat, name: string, now: int, getOk: bool): int
  {
    var t := Lookup(c, hasRemote, name, getOk);
    if t.Some? && t.value <= now then t.value else now - lookback
  }

  class CursorStore {
    const hasRemote: bool
    var mem: map<string, int>
    var remote: map<string, int>

    function State(): Cursors
      reads this
    {
      Cursors(mem, remote)
    }

    constructor (hasRemote: bool)
      ensures this.hasRemote == hasRemote && State() == Cursors(map[], map[])
    {
      this.hasRemote, mem, remote := hasRemote, map[], map[];
    }

    method Get(name: string, getOk: bool) returns (t: Option<int>)
      ensures t == Lookup(State(), hasRemote, name, getOk)
    {
      if hasRemote && getOk && name in remote {
        return Some(remote[name]);
      }
      t := if name in mem then Some(mem[name]) else None;
    }

    /** Record a cursor in memory, then remotely; false when the remote write failed. */
    method Set(name: string, t: int, setOk: bool) returns (ok: bool)
      modifies this
      ensures State() == AfterSet(old(State()), hasRemote, name, t, setOk) && ok == (!hasRemote || setOk)
    {
      mem := mem[name := t];
      if !hasRemote {
        return true;
      }
      if setOk {
        remote := remote[name := t];
      }
      ok := setOk;
    }

    /** Forget every cursor. The remote keys go one at a time, page by page, and a failing
        scan or delete stops the sweep; `pages` is what the scans return, `scans` and
        `dels` how many of them and of the deletes succeed. */
    method Reset(pages: seq<seq<string>>, scans: nat, dels: nat) returns (ok: bool)
      modifies this
      ensures mem == map[] && (!hasRemote ==> ok && remote == old(remote))
      ensures forall n <- remote :: n in old(remote) && remote[n] == old(remote)[n]
      ensures hasRemote ==> (ok <==> |pages| <= scans && |Flatten(pages)| <= dels)
      ensures hasRemote && ok ==> forall n, p | p in pages && n in p :: n !in remote
    {
      mem := map[];
      if !hasRemote {
        return true;
      }
      var i, gone := 0, 0;
      while i < |pages|
        invariant 0 <= i <= |pages| && i <= scans && mem == map[] && gone <= dels
        invariant gone + |Flatten(pages[i..])| == |Flatten(pages)|
        invariant forall n <- remote :: n in old(remote) && remote[n] == old(remote)[n]
        invariant forall q, n | 0 <= q < i && n in pages[q] :: n !in remote
      {
        if i >= scans {
          return false;
        }
        var j := 0;
        assert pages[i..][1..] == pages[i + 1..];
        while j < |pages[i]|
          invariant 0 <= j <= |pages[i]| && mem == map[] && gone <= dels
          invariant gone + (|pages[i]| - j) + |Flatten(pages[i + 1..])| == |Flatten(pages)|
          invariant forall n <- remote :: n in old(remote) && remote[n] == old(remote)[n]
          invariant forall q, n | 0 <= q < i && n in pages[q] :: n !in remote
          invariant forall n | n in pages[i][..j] :: n !in remote
        {
          if gone >= dels {
            return false;
          }
          remote := remote - {pages[i][j]};
          gone, j := gone + 1, j + 1;
        }
        assert pages[i][..|pages[i]|] == pages[i];
        i := i + 1;
      }
      forall n, p | p in pages && n in p ensures n !in remote {
        var q :| 0 <= q < |pages| && pages[q] == p;
      }
      ok := true;
    }
  }

  // ---- batches ------------------------------------------------------------------------

  function BatchSize(n: nat, batchMax: int): (b: nat)
    requires n > 0
    ensures 0 < b <= n
  {
    if 0 < batchMax < n then batchMax else n
  }

  /** The whole pull cut into batches of one size, the last one shorter. */
  function Batches<T>(xs: seq<T>, size: nat): seq<seq<T>>
    requires size > 0
  {
    if xs == [] then [] else if |xs| <= size then [xs] else [xs[..size]] + Batches(xs[size..], size)
  }

  function Flatten<T>(xss: seq<seq<T>>): seq<T>
  {
    if xss == [] then [] else xss[0] + Flatten(xss[1..])
  }

  /** The batches cover the pull exactly: nothing skipped, nothing twice, none empty or too large. */
  lemma {:induction false} BatchesCover<T>(xs: seq<T>, size: nat)
    requires size > 0
    ensures Flatten(Batches(xs, size)) == xs
    ensures forall b <- Batches(xs, size) :: 0 < |b| <= size
  {
    if |xs| > size {
      BatchesCover(xs[size..], size);
      assert xs == xs[..size] + xs[size..];
    }
  }

  /** A positive limit is respected; without one the pull is a single batch. */
  lemma BatchesWithinLimit<T>(xs: seq<T>, batchMax: int)
    requires xs != []
    ensures var batches := Batches(xs, BatchSize(|xs|, batchMax));
      if batchMax > 0 then forall b <- batches :: 0 < |b| <= batchMax else batches == [xs]
  {
    BatchesCover(xs, BatchSize(|xs|, batchMax));
  }

  /** A whole number of batches. */
  predicate Whole(n: int, size: nat)
    requires size > 0
  {
    n == 0 || (n >= size && Whole(n - size, size))
  }

  lemma {:induction false} BatchesPrefix<T>(xs: seq<T>, size: nat, start: nat)
    requires size > 0 && start < |xs| && Whole(start, size)
    ensures Batches(xs[..start], size) + Batches(xs[start..], size) == Batches(xs, size)
    decreases |xs|
  {
    if start == 0 {
      assert xs[..0] == [] && xs[0..] == xs;
    } else if start == size {
      assert xs[..start] == xs[..size];
    } else {
      BatchesPrefix(xs[size..], size, start - size);
      assert xs[size..][..start - size] == xs[..start][size..];
      assert xs[size..][start - size..] == xs[start..];
      assert xs[..start][..size] == xs[..size];
    }
  }

  // ---- the tick ------------------------------------------------------------------------

  datatype Pull<T> = PullFailed | Pulled(signals: seq<T>, newCursor: int)

  class Worker<T> {
    const store: CursorStore
    const lookback: nat
    const batchMax: int

    constructor (store: CursorStore, lookback: nat, batchMax: int)
      ensures this.store == store && this.lookback == lookback && this.batchMax == batchMax
    {
      this.store, this.lookback, this.batchMax := store, lookback, batchMax;
    }

    /** loadCursor. */
    method LoadCursor(name: string, now: int, getOk: bool) returns (since: int)
      ensures since == Resume(store.State(), store.hasRemote, lookback, name, now, getOk)
    {
      var t := store.Get(name, getOk);
      if t.Some? && t.value <= now {
        return t.value;
      }
      since := now - lookback;
    }

    /** Hand a pull over batch by batch; `accepts` says how many batches Group accepts
        before it fails. The cursor is recorded only when all of them went through. */
    method HandOver(name: string, pull: Pull<T>, since: int, accepts: nat, setOk: bool)
      returns (batches: seq<seq<T>>, through: bool)
      modifies store
      ensures pull.PullFailed? ==> batches == [] && !through
      ensures pull.Pulled? && pull.signals != [] ==>
        var all := Batches(pull.signals, BatchSize(|pull.signals|, batchMax));
        through == (|all| <= accepts) && batches == if through then all else all[..accepts + 1]
      ensures pull.Pulled? && pull.signals == [] ==> batches == [] && through
      ensures store.State() == if through && (pull.signals != [] || pull.newCursor > since)
                               then AfterSet(old(store.State()), store.hasRemote, name, pull.newCursor, setOk)
                                 else old(store.State())
    {
      batches := [];
      if pull.PullFailed? {
        return [], false;
      }
      if |pull.signals| == 0 {
        if pull.newCursor > since {
          var _ := store.Set(name, pull.newCursor, setOk);
        }
        return [], true;
      }
      var batchSize := BatchSize(|pull.signals|, batchMax);
      ghost var all := Batches(pull.signals, batchSize);
      var start := 0;
      while start < |pull.signals|
        invariant 0 <= start && (start < |pull.signals| ==> Whole(start, batchSize))
        invariant |batches| <= accepts && |batches| <= |all| && batches == all[..|batches|]
        invariant if start < |pull.signals| then batches == Batches(pull.signals[..start], batchSize)
            else batches == all
        invariant store.State() == old(store.State())
      {
        var end := if start + batchSize < |pull.signals| then start + batchSize else |pull.signals|;
        NextBatch(pull.signals, batchSize, start, end);
        assert batches + [pull.signals[start..end]] == all[..|batches| + 1];
        batches := batches + [pull.signals[start..end]];
        if |batches| > accepts {
          return batches, false;
        }
        start := start + batchSize;
      }
      var _ := store.Set(name, pull.newCursor, setOk);
      through := true;
    }

    function Settings(): Setup { Setup(store.hasRemote, lookback, batchMax) }

    /** One tick of a source: load its cursor, hand the pull made from there over. The cursors
        move as one step of a run does, and what was handed over is the pull itself when all
        of it was accepted. */
    method TickSource(name: string, now: int, getOk: bool, pull: Pull<T>, accepts: nat, setOk: bool)
      returns (since: int, batches: seq<seq<T>>, through: bool)
      modifies store
      ensures since == Resume(old(store.State()), store.hasRemote, lookback, name, now, getOk)
      ensures store.State() == Next(Settings(), old(store.State()), Tick(name, now, getOk, pull, accepts, setOk))
      ensures through == AllAccepted(Settings(), pull, accepts)
      ensures through ==> Flatten(batches) == pull.signals
    {
      since := LoadCursor(name, now, getOk);
      batches, through := HandOver(name, pull, since, accepts, setOk);
      if pull.Pulled? && pull.signals != [] { BatchesCover(pull.signals, BatchSize(|pull.signals|, batchMax)); }
    }
  }

  /** The next batch is the one at its place among all of them. */
  lemma NextBatch<T>(xs: seq<T>, size: nat, start: nat, end: nat)
    requires 0 < size && start < |xs| && Whole(start, size) && end == if start + size < |xs| then start + size else |xs|
    ensures var done, all := Batches(xs[..start], size), Batches(xs, size);
      |done| < |all| && all[..|done|] == done && all[|done|] == xs[start..end]
      && (if start + size < |xs| then Whole(start + size, size)
          && Batches(xs[..start + size], size) == done + [xs[start..end]]
          else all == done + [xs[start..end]])
  {
    BatchesPrefix(xs, size, start);
    var rest := xs[start..];
    assert rest[..if |rest| <= size then |rest| else size] == xs[start..end];
    if start + size < |xs| {
      var more := xs[..start + size];
      BatchesPrefix(more, size, start);
      assert more[..start] == xs[..start] && more[start..] == xs[start..end];
    }
  }

  // ---- runs ------------------------------------------------------------------------------

  /** A tick of a source - its pull, how many batches Group accepts, and whether the cursor's
      read and write succeed - or a new process, or a reset that deletes some remote keys. */
  datatype Event<T> =
    | Tick(name: string, now: int, getOk: bool, pull: Pull<T>, accepts: nat, setOk: bool)
    | Restart
    | Reset(gone: set<string>)

  datatype Setup = Setup(hasRemote: bool, lookback: nat, batchMax: int)

  /** The pull succeeded and every one of its batches was accepted. */
  predicate AllAccepted<T>(u: Setup, pull: Pull<T>, accepts: nat)
  {
    pull.Pulled? && (pull.signals == [] || |Batches(pull.signals, BatchSize(|pull.signals|, u.batchMax))| <= accepts)
  }

  /** A tick records its pull's cursor: all batches went through, and an empty pull moved on. */
  predicate Saves<T>(u: Setup, c: Cursors, e: Event<T>)
  {
    && e.Tick? && AllAccepted(u, e.pull, e.accepts)
    && (e.pull.signals != [] || e.pull.newCursor > Resume(c, u.hasRemote, u.lookback, e.name, e.now, e.getOk))
  }

  function Next<T>(u: Setup, c: Cursors, e: Event<T>): Cursors
  {
    match e
    case Tick(name, _, _, pull, _, setOk) =>
      if Saves(u, c, e) then AfterSet(c, u.hasRemote, name, pull.newCursor, setOk) else c
    case Restart => c.(mem := map[])
    case Reset(gone) => Cursors(map[], c.remote - gone)
  }

  function Run<T>(u: Setup, events: seq<Event<T>>): Cursors
  {
    if events == [] then Cursors(map[], map[]) else Next(u, Run(u, events[..|events| - 1]), events[|events| - 1])
  }

  /** Some tick of this source pulled up to `t` and had all of its batches accepted. */
  ghost predicate WentThrough<T>(u: Setup, events: seq<Event<T>>, name: string, t: int)
  {
    exists e <- events :: e.Tick? && e.name == name && AllAccepted(u, e.pull, e.accepts) && e.pull.newCursor == t
  }

  lemma {:induction false} RecordedWentThrough<T>(u: Setup, events: seq<Event<T>>, name: string)
    ensures var c := Run(u, events);
      && (name in c.mem ==> WentThrough(u, events, name, c.mem[name]))
      && (name in c.remote ==> WentThrough(u, events, name, c.remote[name]))
  {
    if events != [] {
      var front, last := events[..|events| - 1], events[|events| - 1];
      RecordedWentThrough(u, front, name);
      assert last in events && forall e <- front :: e in events;
    }
  }

  /** Whatever writes failed, whatever restarts and resets came between: a source resumes
      from where one of its own pulls had reached whose batches were all accepted, never
      from after now, or from the start of the lookback window. */
  lemma ResumesWhereAPullWentThrough<T>(u: Setup, events: seq<Event<T>>, name: string, now: int, getOk: bool)
    ensures var since := Resume(Run(u, events), u.hasRemote, u.lookback, name, now, getOk);
      since <= now && (since == now - u.lookback || WentThrough(u, events, name, since))
  {
    RecordedWentThrough(u, events, name);
  }

  /** The cursor of the last tick that recorded one. */
  function LastSaved<T>(u: Setup, events: seq<Event<T>>, name: string): Option<int>
  {
    if events == [] then None
    else
      var front, last := events[..|events| - 1], events[|events| - 1];
      if Saves(u, Run(u, front), last) && last.name == name then Some(last.pull.newCursor)
      else LastSaved(u, front, name)
  }

  ghost predicate RemoteWorks<T>(events: seq<Event<T>>) { forall e <- events :: !e.Reset? && (e.Tick? ==> e.setOk) }

  /** With a remote half that works and no reset, a source resumes from the last cursor
      it recorded, across any number of restarts. */
  lemma ResumesAtLastSaved<T>(u: Setup, events: seq<Event<T>>, name: string, now: int)
    requires u.hasRemote && RemoteWorks(events)
    ensures var last := LastSaved(u, events, name);
      Resume(Run(u, events), true, u.lookback, name, now, true)
      == if last.Some? && last.value <= now then last.value else now - u.lookback
  {
    RemoteIsLastSaved(u, events, name);
  }

  lemma {:induction false} RemoteIsLastSaved<T>(u: Setup, events: seq<Event<T>>, name: string)
    requires u.hasRemote && RemoteWorks(events)
    ensures var c, last := Run(u, events), LastSaved(u, events, name);
      if last.Some? then name in c.remote && c.remote[name] == last.value else name !in c.remote && name !in c.mem
  {
    if events != [] {
      var front, last := events[..|events| - 1], events[|events| - 1];
      assert last in events && forall e <- front :: e in events;
      RemoteIsLastSaved(u, front, name);
    }
  }
}
