/** What the other columns of a learned pattern hold after a run, and when a tick is judged. */
module LearnFields {
  import opened Stats
  import opened Patterns
  import opened Spike
  import opened LearnSpec
  import opened LearnRuns

  // ---- one event ------------------------------------------------------------------------

  /** The columns an event sets besides the counters and the baseline. */
  lemma StepFields(cfg: LearnConfig, ps: map<string, Pattern>, e: Event)
    ensures e.o.key in LearnStep(cfg, ps, e)
    ensures var r := LearnStep(cfg, ps, e)[e.o.key];
      && (e.o.key !in ps ==> r.orgId == "default" && r.spikeBaselineMode == "" && r.tags == r.samples == [])
      && (e.o.key in ps ==> r.orgId == ps[e.o.key].orgId && r.spikeBaselineMode == ps[e.o.key].spikeBaselineMode)
      && r.id == (if e.o.key in ps then ps[e.o.key].id else e.o.key) && r.template == e.o.template
          && r.lastSeen == e.foldAt
      && (if e.o.key in ps then
            var p := ps[e.o.key];
            r.firstSeen == p.firstSeen && r.source == p.source && r.tags == p.tags && r.samples == p.samples
            && r.ruleName == (if e.o.ruleName != "" && (e.o.ruleName != DEFAULT_RULE || p.ruleName == "")
                              then e.o.ruleName else p.ruleName)
            && r.service == (if RealService(e.o.service) then e.o.service else p.service)
          else
            r.firstSeen == e.foldAt && r.source == cfg.source && r.ruleName == e.o.ruleName && r.service == e.o.service)
  {
    var p := if e.o.key in ps then Refreshed(ps[e.o.key], e.o.ruleName, e.o.service)
             else NewPattern(e.o, cfg.source, e.foldAt);
    FoldedKeeps(FoldConfig(cfg), Stamped(p, e.o, e.foldAt), e.o.frequency,
                if cfg.alpha <= 0.0 then 0.2 else cfg.alpha, e.foldAt, p.count, cfg.sqrt);
  }

  lemma StepOthers(cfg: LearnConfig, ps: map<string, Pattern>, e: Event, key: string)
    requires key != e.o.key
    ensures key in LearnStep(cfg, ps, e) <==> key in ps
    ensures key in ps ==> LearnStep(cfg, ps, e)[key] == ps[key]
  {
    LearnStepCounts(cfg, ps, e);
  }

  // ---- over runs ------------------------------------------------------------------------

  /** The sightings of a pattern among the events. */
  function Of(events: seq<Event>, key: string): seq<Event>
  {
    if events == [] then []
    else Of(events[..|events| - 1], key) + if events[|events| - 1].o.key == key then [events[|events| - 1]] else []
  }

  predicate NamedRule(rule: string) { rule != "" && rule != DEFAULT_RULE }

  /** The last sighting with a named rule. */
  ghost predicate LastNamed(seen: seq<Event>, i: nat)
    requires i < |seen|
  {
    NamedRule(seen[i].o.ruleName) && forall j :: i < j < |seen| ==> !NamedRule(seen[j].o.ruleName)
  }

  /** The last sighting attributed to a real service. */
  ghost predicate LastReal(seen: seq<Event>, i: nat)
    requires i < |seen|
  {
    RealService(seen[i].o.service) && forall j :: i < j < |seen| ==> !RealService(seen[j].o.service)
  }

  /** First and last sighting, template, rule tag and service as the sightings leave them. */
  ghost predicate Carries(cfg: LearnConfig, p: Pattern, seen: seq<Event>)
  {
    && seen != [] && p.id == seen[0].o.key && p.source == cfg.source && p.orgId == "default"
    && p.spikeBaselineMode == "" && p.tags == p.samples == []
    && p.firstSeen == seen[0].foldAt && p.lastSeen == seen[|seen| - 1].foldAt
        && p.template == seen[|seen| - 1].o.template
    && TagIs(p.ruleName, seen) && ServiceIs(p.service, seen)
  }

  /** The tag is the last named rule; with none, "default" if any sighting had it. */
  ghost predicate TagIs(tag: string, seen: seq<Event>)
  {
    && (forall i :: 0 <= i < |seen| && LastNamed(seen, i) ==> tag == seen[i].o.ruleName)
    && ((forall i :: 0 <= i < |seen| ==> !NamedRule(seen[i].o.ruleName)) ==>
          tag == if exists i :: 0 <= i < |seen| && seen[i].o.ruleName == DEFAULT_RULE then DEFAULT_RULE else "")
  }

  /** The service is the last real one; with none, that of the first sighting. */
  ghost predicate ServiceIs(service: string, seen: seq<Event>)
    requires seen != []
  {
    && (forall i :: 0 <= i < |seen| && LastReal(seen, i) ==> service == seen[i].o.service)
    && ((forall i :: 0 <= i < |seen| ==> !RealService(seen[i].o.service)) ==> service == seen[0].o.service)
  }

  lemma {:induction false} LastNamedExists(seen: seq<Event>)
    ensures (exists i :: 0 <= i < |seen| && LastNamed(seen, i))
            || forall i :: 0 <= i < |seen| ==> !NamedRule(seen[i].o.ruleName)
  {
    if seen != [] {
      var n := |seen| - 1;
      if NamedRule(seen[n].o.ruleName) {
        assert LastNamed(seen, n);
      } else {
        LastNamedExists(seen[..n]);
        if i :| 0 <= i < n && LastNamed(seen[..n], i) { assert LastNamed(seen, i); }
      }
    }
  }

  lemma {:induction false} LastRealExists(seen: seq<Event>)
    ensures (exists i :: 0 <= i < |seen| && LastReal(seen, i))
            || forall i :: 0 <= i < |seen| ==> !RealService(seen[i].o.service)
  {
    if seen != [] {
      var n := |seen| - 1;
      if RealService(seen[n].o.service) {
        assert LastReal(seen, n);
      } else {
        LastRealExists(seen[..n]);
        if i :| 0 <= i < n && LastReal(seen[..n], i) { assert LastReal(seen, i); }
      }
    }
  }

  lemma TagStep(tag: string, seen: seq<Event>, e: Event, now: string)
    requires seen != [] ==> TagIs(tag, seen)
    requires now == if seen == [] then e.o.ruleName
                    else if e.o.ruleName != "" && (e.o.ruleName != DEFAULT_RULE || tag == "") then e.o.ruleName else tag
    ensures TagIs(now, seen + [e])
  {
    var more := seen + [e];
    LastNamedExists(seen);
    forall i | 0 <= i < |more| && LastNamed(more, i) ensures now == more[i].o.ruleName {
      if i < |seen| {
        assert more[|seen|] == e && !NamedRule(e.o.ruleName);
        assert forall j :: i < j < |seen| ==> more[j] == seen[j];
        assert LastNamed(seen, i) && tag == seen[i].o.ruleName;
      }
    }
    if forall i :: 0 <= i < |more| ==> !NamedRule(more[i].o.ruleName) {
      assert more[|seen|] == e;
      forall i | 0 <= i < |seen| ensures !NamedRule(seen[i].o.ruleName) { assert more[i] == seen[i]; }
      DefaultSeen(seen, e);
    }
  }

  lemma DefaultSeen(seen: seq<Event>, e: Event)
    ensures (exists i :: 0 <= i < |seen + [e]| && (seen + [e])[i].o.ruleName == DEFAULT_RULE)
            <==> (exists i :: 0 <= i < |seen| && seen[i].o.ruleName == DEFAULT_RULE) || e.o.ruleName == DEFAULT_RULE
  {
    var more := seen + [e];
    if i :| 0 <= i < |seen| && seen[i].o.ruleName == DEFAULT_RULE { assert more[i] == seen[i]; }
    assert more[|seen|] == e;
  }

  lemma ServiceStep(service: string, seen: seq<Event>, e: Event, now: string)
    requires seen != [] ==> ServiceIs(service, seen)
    requires now == if seen == [] || RealService(e.o.service) then e.o.service else service
    ensures ServiceIs(now, seen + [e])
  {
    var more := seen + [e];
    LastRealExists(seen);
    assert more[|seen|] == e && more[0] == if seen == [] then e else seen[0];
    forall i | 0 <= i < |more| && LastReal(more, i) ensures now == more[i].o.service {
      if i < |seen| {
        assert !RealService(e.o.service) && forall j :: i < j < |seen| ==> more[j] == seen[j];
        assert LastReal(seen, i) && service == seen[i].o.service;
      }
    }
    if forall i :: 0 <= i < |more| ==> !RealService(more[i].o.service) {
      forall i | 0 <= i < |seen| ensures !RealService(seen[i].o.service) { assert more[i] == seen[i]; }
    }
  }

  /** From an empty catalog, over every run, a pattern is there exactly when it was sighted,
      and its columns are those of its first, last, last named and last attributed sighting. */
  lemma {:induction false} FieldsOverRuns(cfg: LearnConfig, events: seq<Event>, key: string)
    ensures key in LearnRun(cfg, map[], events) <==> Of(events, key) != []
    ensures key in LearnRun(cfg, map[], events) ==> Carries(cfg, LearnRun(cfg, map[], events)[key], Of(events, key))
  {
    if events != [] {
      var front, e := events[..|events| - 1], events[|events| - 1];
      FieldsOverRuns(cfg, front, key);
      FieldsStep(cfg, LearnRun(cfg, map[], front), e, key, Of(front, key));
    }
  }

  lemma FieldsStep(cfg: LearnConfig, ps: map<string, Pattern>, e: Event, key: string, seen: seq<Event>)
    requires key in ps <==> seen != []
    requires key in ps ==> Carries(cfg, ps[key], seen)
    ensures var r, more := LearnStep(cfg, ps, e), seen + if e.o.key == key then [e] else [];
      (key in r <==> more != []) && (key in r ==> Carries(cfg, r[key], more))
  {
    if e.o.key == key {
      StepFields(cfg, ps, e);
      var r := LearnStep(cfg, ps, e)[key];
      TagStep(if key in ps then ps[key].ruleName else "", seen, e, r.ruleName);
      ServiceStep(if key in ps then ps[key].service else "", seen, e, r.service);
    } else {
      StepOthers(cfg, ps, e, key);
      assert seen + [] == seen;
    }
  }

  // ---- grace ------------------------------------------------------------------------------

  /** When an event that tracks its service would enter it. */
  function TrackedAt(e: Event): int { if RealService(e.o.service) then e.registerAt else e.graceAt }

  lemma StepAnchor(cfg: LearnConfig, s: BrainState, e: Event, name: string)
    ensures var r := Step(cfg, s, e).state;
      && (name in s.services ==> name in r.services && r.services[name] == s.services[name])
      && (name !in s.services && name in r.services ==>
            e.o.service == name && Tracks(cfg, e) && r.services[name] == ServiceInfo(DEFAULT_ORG, TrackedAt(e), false))
  {
  }

  /** The first event that tracks a service. */
  ghost predicate FirstTracked(cfg: LearnConfig, events: seq<Event>, name: string, i: nat)
    requires i < |events|
  {
    events[i].o.service == name && Tracks(cfg, events[i])
    && forall j :: 0 <= j < i ==> !(events[j].o.service == name && Tracks(cfg, events[j]))
  }

  /** A tracked service keeps the time of the first event that tracked it, for good. */
  lemma {:induction false} AnchorIsFirst(cfg: LearnConfig, events: seq<Event>, name: string, i: nat)
    requires i < |events| && FirstTracked(cfg, events, name, i)
    ensures var services := Run(cfg, FRESH, events).state.services;
      name in services && services[name] == ServiceInfo(DEFAULT_ORG, TrackedAt(events[i]), false)
  {
    var n := |events| - 1;
    var front := events[..n];
    if i < n {
      assert FirstTracked(cfg, front, name, i);
      AnchorIsFirst(cfg, front, name, i);
      StepAnchor(cfg, Run(cfg, FRESH, front).state, events[n], name);
    } else {
      NotNamedBefore(cfg, events, name, n);
      RunServices(cfg, FRESH, front, name);
      AnchorSet(cfg, Run(cfg, FRESH, front).state, events[n], name);
    }
  }

  lemma NotNamedBefore(cfg: LearnConfig, events: seq<Event>, name: string, n: nat)
    requires n < |events| && FirstTracked(cfg, events, name, n)
    ensures !Named(cfg, events[..n], name)
  {
    forall e | e in events[..n] ensures !(e.o.service == name && Tracks(cfg, e)) {
      var j :| 0 <= j < n && events[..n][j] == e;
      assert events[j] == e;
    }
  }

  lemma AnchorSet(cfg: LearnConfig, s: BrainState, e: Event, name: string)
    requires name !in s.services && e.o.service == name && Tracks(cfg, e)
    ensures var services := Step(cfg, s, e).state.services;
      name in services && services[name] == ServiceInfo(DEFAULT_ORG, TrackedAt(e), false)
  {
    StepServices(cfg, s, e, name);
    StepAnchor(cfg, s, e, name);
  }

  /** A tick is judged exactly in shadow and detect, and not in the grace window of its service,
      which opens when the service was first tracked - by this very event, if by none before. */
  lemma JudgedIff(cfg: LearnConfig, s: BrainState, e: Event)
    ensures Step(cfg, s, e).outcome.Judged? <==>
      && (e.mode == SHADOW || e.mode == DETECT)
      && (cfg.grace <= 0 || e.graceAt >= (if e.o.service in s.services then s.services[e.o.service].firstSeen
                                          else TrackedAt(e)) + cfg.grace)
    ensures Step(cfg, s, e).outcome.InGrace? <==>
      (e.mode == SHADOW || e.mode == DETECT) && !Step(cfg, s, e).outcome.Judged?
  {
  }
}
