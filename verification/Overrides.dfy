/** Operator corrections of service attribution: per-organization rule sets with a write
    that may fail after every change, and the undo each operation performs. */
module Overrides {
  import opened Common
  import opened Glob
  import opened Tokenizer

  type Org = string

  datatype Rule = Rule(id: string, org: Org, source: string, pattern: string, service: string, createdAt: int,
                       createdBy: string)

  type RuleSet = map<string, Rule>

  type Rules = map<Org, RuleSet>

  function RulesOf(rules: Rules, org: Org): RuleSet { if org in rules then rules[org] else map[] }

  /** The same rules in every organization. */
  ghost predicate SameRules(a: Rules, b: Rules)
  {
    forall org: Org :: RulesOf(a, org) == RulesOf(b, org)
  }

  const LOG: string := "log"
  const METRIC: string := "metric"
  const TRACE: string := "trace"
  const MAX_RULES: nat := 5000
  const MAX_PATTERN: nat := 512
  const MAX_SERVICE: nat := 256

  predicate ValidSource(s: string) { s == LOG || s == METRIC || s == TRACE }

  /** The length of a string in UTF-8 bytes. */
  function Bytes(s: string): nat
  {
    if s == "" then 0
    else
      (if s[0] < '\U{0080}' then 1 else if s[0] < '\U{0800}' then 2 else if s[0] < '\U{10000}' then 3 else 4)
      + Bytes(s[1..])
  }

  /** One byte for ASCII, up to four for the rest, and the bytes of a text are those of its parts. */
  lemma {:induction false} BytesOf(a: string, c: char, b: string)
    ensures Bytes(a + [c] + b) == Bytes(a) + Bytes([c]) + Bytes(b)
    ensures Bytes([c])
            == if c as int < 0x80 then 1 else if c as int < 0x800 then 2 else if c as int < 0x10000 then 3 else 4
  {
    if a == "" {
      assert a + [c] + b == [c] + b && ([c] + b)[1..] == b && [c][1..] == "";
    } else {
      assert (a + [c] + b)[1..] == a[1..] + [c] + b;
      BytesOf(a[1..], c, b);
    }
  }

  // ---- matching --------------------------------------------------------------------------

  datatype Input = Input(source: string, pattern: string, message: string, signal: string)

  /** A rule applies to an input of its own source type: a log line by its pattern or by a
      substring, a metric or trace by its name. */
  predicate Applies(r: Rule, x: Input)
  {
    && r.source == x.source && r.pattern != "" && r.service != ""
    && if x.source == LOG then (x.pattern != "" && r.pattern == x.pattern)
        || (x.message != "" && Contains(x.message, r.pattern))
       else if x.source == METRIC || x.source == TRACE then
         TrimSpace(r.pattern) != "" && x.signal != "" && GlobMatch(TrimSpace(r.pattern), x.signal, false)
       else false
  }

  /** overrideMatches. */
  method OverrideMatches(r: Rule, x: Input) returns (b: bool)
    ensures b == Applies(r, x)
  {
    if r.source != x.source || r.pattern == "" || r.service == "" {
      return false;
    }
    if x.source == LOG {
      if x.pattern != "" && r.pattern == x.pattern {
        return true;
      }
      return x.message != "" && Contains(x.message, r.pattern);
    }
    if x.source == METRIC || x.source == TRACE {
      b := MatchSignalGlob(x.signal, r.pattern);
      return b;
    }
    b := false;
  }

  // ---- changes ---------------------------------------------------------------------------

  /** A rule's place: one rule per source and match. */
  predicate SamePlace(r: Rule, source: string, pattern: string) { r.source == source && r.pattern == pattern }

  predicate Occupied(rs: RuleSet, source: string, pattern: string)
  {
    exists id <- rs :: rs[id].source == source && rs[id].pattern == pattern
  }

  /** Corrections do not stack: no two rules share a place, and each sits under its own id. */
  ghost predicate OnePerPlace(rs: RuleSet)
  {
    && (forall id <- rs :: rs[id].id == id)
    && (forall a, b | a in rs && b in rs && SamePlace(rs[a], rs[b].source, rs[b].pattern) :: a == b)
  }

  function Repointed(rs: RuleSet, from: string, to: string): RuleSet
  {
    map id | id in rs :: if rs[id].service == from then rs[id].(service := to) else rs[id]
  }

  predicate Targets(rs: RuleSet, service: string) { exists id <- rs :: rs[id].service == service }

  function Hits(rs: RuleSet, service: string): set<string> { set id | id in rs && rs[id].service == service }

  lemma HitsAreTargets(rs: RuleSet, service: string)
    ensures Targets(rs, service) <==> |Hits(rs, service)| > 0
  {
    if Targets(rs, service) {
      var id :| id in rs && rs[id].service == service;
      assert id in Hits(rs, service);
    } else {
      assert Hits(rs, service) == {};
    }
  }

  /** Moving the rules of one service to another and back restores them exactly when no
      rule was at the second service to begin with. */
  lemma RepointBackIff(rs: RuleSet, from: string, to: string)
    requires from != to
    ensures Repointed(Repointed(rs, from, to), to, from) == rs <==> !Targets(rs, to)
  {
    var back := Repointed(Repointed(rs, from, to), to, from);
    if Targets(rs, to) {
      var id :| id in rs && rs[id].service == to;
      assert back[id].service == from;
    }
  }

  lemma RepointKeepsPlaces(rs: RuleSet, from: string, to: string)
    requires OnePerPlace(rs)
    ensures OnePerPlace(Repointed(rs, from, to))
  {
    var r := Repointed(rs, from, to);
    forall a, b | a in r && b in r && SamePlace(r[a], r[b].source, r[b].pattern) ensures a == b {
      assert SamePlace(rs[a], rs[b].source, rs[b].pattern);
    }
  }

  /** The id a rule is put under: the one at its place, else the fresh one. */
  predicate PutId(rs: RuleSet, rule: Rule, freshId: string)
  {
    if Occupied(rs, rule.source, rule.pattern) then
      rule.id in rs && rs[rule.id].source == rule.source && rs[rule.id].pattern == rule.pattern
    else rule.id == freshId
  }

  lemma OthersElsewhere(rs: RuleSet, rule: Rule, freshId: string, other: string)
    requires OnePerPlace(rs) && PutId(rs, rule, freshId) && other in rs && other != rule.id
    ensures !SamePlace(rs[other], rule.source, rule.pattern)
  {
  }

  lemma PutKeepsPlaces(rs: RuleSet, rule: Rule, freshId: string)
    requires OnePerPlace(rs) && PutId(rs, rule, freshId)
    ensures OnePerPlace(rs[rule.id := rule]) && OnePerPlace(rs - {rule.id})
  {
    forall other | other in rs && other != rule.id ensures !SamePlace(rs[other], rule.source, rule.pattern) {
      OthersElsewhere(rs, rule, freshId, other);
    }
  }

  /** Putting a rule and dropping its id again restores the rules exactly when the id was free. */
  lemma PutBackIff(rs: RuleSet, rule: Rule)
    ensures rs[rule.id := rule] - {rule.id} == rs <==> rule.id !in rs
  {
    var back := rs[rule.id := rule] - {rule.id};
    if rule.id !in rs { assert back == rs; }
  }

  lemma OneOrgChanged(a: Rules, b: Rules, org: Org)
    requires forall o: Org :: o != org ==> RulesOf(a, o) == RulesOf(b, o)
    ensures SameRules(a, b) <==> RulesOf(a, org) == RulesOf(b, org)
  {
  }

  /** Dropping the id of a put rule restores every organization's rules exactly when the
      rule took no one's place and its fresh id was free. */
  lemma PutUndone(now: Rules, before: Rules, org: Org, rule: Rule, freshId: string)
    requires forall o: Org :: o != org ==> RulesOf(now, o) == RulesOf(before, o)
    requires RulesOf(now, org) == RulesOf(before, org)[rule.id := rule] - {rule.id}
        && PutId(RulesOf(before, org), rule, freshId)
    ensures RulesOf(now, org) == RulesOf(before, org) - {rule.id}
    ensures SameRules(now, before) <==>
      !Occupied(RulesOf(before, org), rule.source, rule.pattern) && freshId !in RulesOf(before, org)
  {
    OneOrgChanged(now, before, org);
    PutBackIff(RulesOf(before, org), rule);
  }

  datatype PutError = NoError | InvalidSource | Blank | TooLong | TooMany | WriteFailed

  /** Valid and not blank; short enough; no room for one more. */
  predicate Complete(x: Rule)
  {
    TrimSpace(x.source) in {"log", "metric", "trace"} && TrimSpace(x.pattern) != "" && TrimSpace(x.service) != ""
  }

  predicate ShortEnough(x: Rule)
  {
    Bytes(TrimSpace(x.pattern)) <= 512 && Bytes(TrimSpace(x.service)) <= 256
  }

  predicate Full(rs: RuleSet, source: string, pattern: string) { !Occupied(rs, source, pattern) && |rs| >= 5000 }

  class OverrideStore {
    const hasStore: bool
    var rules: Rules
    /** What the last successful write stored. */
    var stored: Rules

    constructor (hasStore: bool)
      ensures this.hasStore == hasStore && rules == stored == map[]
    {
      this.hasStore, rules, stored := hasStore, map[], map[];
    }

    /** The cache and the stored rules agree. */
    ghost predicate InSync()
      reads this
    {
      hasStore ==> SameRules(rules, stored)
    }

    /** Write the whole rule set; a no-op without a store. */
    method PersistLocked(writeOk: bool) returns (ok: bool)
      modifies this`stored
      ensures ok == (!hasStore || writeOk)
      ensures stored == if hasStore && writeOk then rules else old(stored)
    {
      if !hasStore {
        return true;
      }
      if writeOk {
        stored := rules;
      }
      ok := writeOk;
    }

    /** Put: the last correction for a place wins. `freshId` is the id a new rule gets. */
    method Put(org: Org, x: Rule, freshId: string, now: int, writeOk: bool) returns (rule: Rule, err: PutError)
      modifies this
      ensures forall o: Org :: o != org ==> RulesOf(rules, o) == RulesOf(old(rules), o)
      ensures err.InvalidSource? <==> TrimSpace(x.source) !in {"log", "metric", "trace"}
      ensures err.Blank? <==>
        TrimSpace(x.source) in {"log", "metric", "trace"} && (TrimSpace(x.pattern) == "" || TrimSpace(x.service) == "")
      ensures err.TooLong? <==> Complete(x) && !ShortEnough(x)
      ensures err.TooMany? <==>
        Complete(x) && ShortEnough(x) && Full(RulesOf(old(rules), org), TrimSpace(x.source), TrimSpace(x.pattern))
      ensures err.WriteFailed? <==>
        Complete(x) && ShortEnough(x)
          && !Full(RulesOf(old(rules), org), TrimSpace(x.source), TrimSpace(x.pattern))
          && hasStore && !writeOk
      ensures err.NoError? || err.WriteFailed? ==>
        PutDone(RulesOf(old(rules), org), org, TrimSpace(x.source), TrimSpace(x.pattern),
          TrimSpace(x.service), TrimSpace(x.createdBy), freshId, now, rule, err)
      ensures !err.NoError? && !err.WriteFailed? ==> rules == old(rules) && stored == old(stored)
      ensures OnePerPlace(RulesOf(old(rules), org)) ==> OnePerPlace(RulesOf(rules, org))
    {
      rule := x;
      var source, pattern, service := TrimSpace(x.source), TrimSpace(x.pattern), TrimSpace(x.service);
      if !ValidSource(source) {
        return x, InvalidSource;
      }
      if pattern == "" || service == "" {
        return x, Blank;
      }
      if Bytes(pattern) > MAX_PATTERN || Bytes(service) > MAX_SERVICE {
        return x, TooLong;
      }
      ghost var rs := RulesOf(rules, org);
      rule, err := PutLocked(org, source, pattern, service, TrimSpace(x.createdBy), freshId, now, writeOk);
      if !err.TooMany? && OnePerPlace(rs) { PutKeepsPlaces(rs, rule, freshId); }
    }

    /** What a Put that passed validation did: the rule took its place, or the write failed
        and its id was dropped - which restores the rules exactly when it replaced nothing. */
    twostate predicate PutDone(rs: RuleSet, org: Org, source: string, pattern: string, service: string, author: string,
                               freshId: string, now: int, rule: Rule, err: PutError)
      reads this
    {
      && rule == Rule(rule.id, org, source, pattern, service, now, author)
      && PutId(rs, rule, freshId) && (!Occupied(rs, source, pattern) ==> |rs| < 5000)
      && if err.NoError? then RulesOf(rules, org) == rs[rule.id := rule] && (hasStore ==> stored == rules)
         else
           && err.WriteFailed? && stored == old(stored) && RulesOf(rules, org) == rs - {rule.id}
           && (SameRules(rules, old(rules)) <==> !Occupied(rs, source, pattern) && freshId !in rs)
    }

    method PutLocked(org: Org, source: string, pattern: string, service: string, author: string, freshId: string,
                     now: int, writeOk: bool) returns (rule: Rule, err: PutError)
      modifies this
      ensures forall o: Org :: o != org ==> RulesOf(rules, o) == RulesOf(old(rules), o)
      ensures err.NoError? || err.WriteFailed? || err.TooMany?
      ensures err.TooMany? <==> Full(RulesOf(old(rules), org), source, pattern)
      ensures err.WriteFailed? <==> !Full(RulesOf(old(rules), org), source, pattern) && hasStore && !writeOk
      ensures !err.TooMany? ==>
          PutDone(RulesOf(old(rules), org), org, source, pattern, service, author, freshId, now, rule, err)
      ensures err.TooMany? ==> rules == old(rules) && stored == old(stored)
    {
      var rs := RulesOf(rules, org);
      var existing := Find(rs, source, pattern);
      rule := Rule(if existing.Some? then existing.value else freshId, org, source, pattern, service, now, author);
      if existing.None? && |rs| >= MAX_RULES {
        return rule, TooMany;
      }
      assert PutId(rs, rule, freshId);
      var ok := PutUnder(org, rule, writeOk);
      if !ok {
        PutUndone(rules, old(rules), org, rule, freshId);
        return rule, WriteFailed;
      }
      err := NoError;
    }

    /** Put a rule under its id and write; when the write fails, drop the id. */
    method PutUnder(org: Org, rule: Rule, writeOk: bool) returns (ok: bool)
      modifies this
      ensures ok == (!hasStore || writeOk) && stored == if hasStore && ok then rules else old(stored)
      ensures forall o: Org :: o != org ==> RulesOf(rules, o) == RulesOf(old(rules), o)
      ensures RulesOf(rules, org) ==
        if ok then RulesOf(old(rules), org)[rule.id := rule] else RulesOf(old(rules), org)[rule.id := rule] - {rule.id}
    {
      var put := RulesOf(rules, org)[rule.id := rule];
      ok := Store(org, put, writeOk);
      if !ok {
        rules := rules[org := put - {rule.id}];
      }
    }

    /** Set one organization's rules and write them all. */
    method Store(org: Org, rs: RuleSet, writeOk: bool) returns (ok: bool)
      modifies this
      ensures rules == old(rules)[org := rs] && ok == (!hasStore || writeOk)
      ensures stored == if hasStore && writeOk then rules else old(stored)
    {
      rules := rules[org := rs];
      ok := PersistLocked(writeOk);
    }

    /** Delete: a failing write puts the rule back. */
    method Delete(org: Org, id: string, writeOk: bool) returns (removed: bool, err: bool)
      modifies this
      ensures forall o: Org :: o != org ==> RulesOf(rules, o) == RulesOf(old(rules), o)
      ensures id !in RulesOf(old(rules), org) ==> !removed && !err && rules == old(rules) && stored == old(stored)
      ensures id in RulesOf(old(rules), org) ==> removed == !err && err == (hasStore && !writeOk)
      ensures removed ==> RulesOf(rules, org) == RulesOf(old(rules), org) - {id} && (hasStore ==> stored == rules)
      ensures err ==> SameRules(rules, old(rules)) && stored == old(stored)
      ensures old(InSync()) ==> InSync()
      ensures OnePerPlace(RulesOf(old(rules), org)) ==> OnePerPlace(RulesOf(rules, org))
    {
      if org !in rules || id !in rules[org] {
        return false, false;
      }
      var gone := rules[org][id];
      rules := rules[org := rules[org] - {id}];
      var ok := PersistLocked(writeOk);
      if !ok {
        rules := rules[org := rules[org][id := gone]];
        assert RulesOf(rules, org) == old(RulesOf(rules, org));
        return false, true;
      }
      return true, false;
    }

    /** RepointService: a failing write sends every rule of the new service to the old one. */
    method RepointService(org: Org, oldService: string, newService: string, writeOk: bool) returns (n: nat, err: bool)
      modifies this
      ensures forall o: Org :: o != org ==> RulesOf(rules, o) == RulesOf(old(rules), o)
      ensures var rs, from, to := RulesOf(old(rules), org), TrimSpace(oldService), TrimSpace(newService);
        if from == "" || to == "" || from == to || !Targets(rs, from)
            then n == 0 && !err && rules == old(rules) && stored == old(stored)
        else RepointDone(rs, org, from, to, writeOk, n, err)
      ensures OnePerPlace(RulesOf(old(rules), org)) ==> OnePerPlace(RulesOf(rules, org))
    {
      var from, to := TrimSpace(oldService), TrimSpace(newService);
      if from == "" || to == "" || from == to {
        return 0, false;
      }
      HitsAreTargets(RulesOf(rules, org), from);
      if |Hits(RulesOf(rules, org), from)| == 0 {
        return 0, false;
      }
      ghost var rs := RulesOf(rules, org);
      n, err := Repoint(org, from, to, writeOk);
      if OnePerPlace(rs) {
        RepointKeepsPlaces(rs, from, to);
        RepointKeepsPlaces(Repointed(rs, from, to), to, from);
      }
    }

    /** A repoint of at least one rule: all moved and stored, or all at the new service sent
        back - which restores the rules exactly when none was there before. */
    twostate predicate RepointDone(rs: RuleSet, org: Org, from: string, to: string, writeOk: bool, n: nat, err: bool)
      reads this
    {
      && err == (hasStore && !writeOk)
      && if err then
           && n == 0 && stored == old(stored) && RulesOf(rules, org) == Repointed(Repointed(rs, from, to), to, from)
           && (SameRules(rules, old(rules)) <==> !Targets(rs, to))
         else
           && RulesOf(rules, org) == Repointed(rs, from, to) && n == |set id | id in rs && rs[id].service == from|
           && (hasStore ==> stored == rules)
    }

    method Repoint(org: Org, from: string, to: string, writeOk: bool) returns (n: nat, err: bool)
      requires from != to && Targets(RulesOf(rules, org), from)
      modifies this
      ensures forall o: Org :: o != org ==> RulesOf(rules, o) == RulesOf(old(rules), o)
      ensures RepointDone(RulesOf(old(rules), org), org, from, to, writeOk, n, err)
    {
      var rs := RulesOf(rules, org);
      n := |Hits(rs, from)|;
      RepointBackIff(rs, from, to);
      var ok := Store(org, Repointed(rs, from, to), writeOk);
      if !ok {
        rules := rules[org := Repointed(rules[org], to, from)];
        OneOrgChanged(rules, old(rules), org);
        return 0, true;
      }
      err := false;
    }

    /** ResolveService: the service of some rule that applies, if any does. */
    method ResolveService(org: Org, x: Input) returns (service: Option<string>)
      ensures service.None? <==> forall id <- RulesOf(rules, org) :: !Applies(RulesOf(rules, org)[id], x)
      ensures service.Some? ==> exists id <- RulesOf(rules, org) ::
        Applies(RulesOf(rules, org)[id], x) && RulesOf(rules, org)[id].service == service.value
    {
      var rs := RulesOf(rules, org);
      var todo := rs.Keys;
      while todo != {}
        invariant todo <= rs.Keys
        invariant forall id <- rs :: id !in todo ==> !Applies(rs[id], x)
        decreases |todo|
      {
        var id: string :| id in todo;
        var hit := OverrideMatches(rs[id], x);
        if hit {
          return Some(rs[id].service);
        }
        todo := todo - {id};
      }
      service := None;
    }
  }

  /** The id of the rule at a place. */
  method Find(rs: RuleSet, source: string, pattern: string) returns (id: Option<string>)
    ensures id.None? <==> !Occupied(rs, source, pattern)
    ensures id.Some? ==> id.value in rs && SamePlace(rs[id.value], source, pattern)
  {
    var todo := rs.Keys;
    while todo != {}
      invariant todo <= rs.Keys
      invariant forall i <- rs :: i !in todo ==> !SamePlace(rs[i], source, pattern)
      decreases |todo|
    {
      var i: string :| i in todo;
      if SamePlace(rs[i], source, pattern) {
        return Some(i);
      }
      todo := todo - {i};
    }
    id := None;
  }
}
