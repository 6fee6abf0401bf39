/** What a frame says about one connection, stated on the events it emits and on the counters and metadata
    the controller reported, whatever the engine calculates on the way. */
module ConnLaws {
  import opened Types
  import opened Attribution
  import opened EventLog
  import opened Decisions

  /** The events of one type, in order. */
  function OfKind(ds: seq<Draft>, typ: EventType): seq<Draft> {
    if ds == [] then []
    else OfKind(ds[..|ds| - 1], typ) + if ds[|ds| - 1].typ == typ then [ds[|ds| - 1]] else []
  }

  predicate Reports(ds: seq<Draft>, issue: Issue) {
    exists i :: 0 <= i < |ds| && ds[i].typ.CollectorHealth? && ds[i].details == HealthIssue(issue)
  }

  /** What a counter pair gained in each direction. */
  function Gained(now: Bytes, since: Bytes): Bytes {
    Bytes(if now.up > since.up then now.up - since.up else 0,
          if now.down > since.down then now.down - since.down else 0)
  }

  /** A counter went back in some direction. */
  predicate Fell(now: Bytes, since: Bytes) {
    now.up < since.up || now.down < since.down
  }

  function Plus(a: Bytes, b: Bytes): Bytes {
    Bytes(a.up + b.up, a.down + b.down)
  }

  // ---------------------------------------------------------------------------------------------
  // The cases
  // ---------------------------------------------------------------------------------------------

  /** The remembered metadata is the reported one, and a change of it is said once; the route follows the hops. */
  ghost predicate MetadataFollowed(s: Active, c: Snapshot, own: seq<Draft>, s': Active) {
    && s'.snap.meta == c.meta
    && s'.route == (if s.snap.meta.chains == c.meta.chains then s.route else ClassifyRoute(c.meta.chains))
    && (s.snap.meta == c.meta ==> OfKind(own, MetadataUpdated) == [])
    && (s.snap.meta != c.meta ==>
          var said := OfKind(own, MetadataUpdated);
          |said| == 1 && said[0].meta == c.meta && said[0].route == s'.route)
    && (Reports(own, RoutingChainMutation) <==> s.snap.meta.chains != c.meta.chains)
  }

  /** A confirmation is said once and stays; nothing else changes the attribution of a live connection. */
  ghost predicate ConfirmationFollowed(s: Active, confirmed: bool, own: seq<Draft>, s': Active) {
    var said := OfKind(own, RelayClassificationChanged);
    && s'.attr == (if confirmed then ConfirmedRelayDuplicate else s.attr)
    && (if s'.attr == s.attr then said == [] else |said| == 1 && said[0].attr == ConfirmedRelayDuplicate)
  }

  /** The gained bytes are said once, with the totals and the standing of the connection after the frame. */
  ghost predicate GainSaid(gain: Bytes, c: Snapshot, own: seq<Draft>, s': Active) {
    var said := OfKind(own, ConnectionDelta);
    if gain == NO_BYTES then said == []
    else
      && |said| == 1 && said[0].delta == gain && said[0].observed == c.counters && said[0].monitored == s'.monitored
      && said[0].meta == c.meta && said[0].attr == s'.attr && said[0].route == s'.route
      && said[0].baseline == s'.baseline
  }

  predicate Exact(ds: seq<Draft>) {
    forall i :: 0 <= i < |ds| && (ds[i].typ.ConnectionNew? || ds[i].typ.ConnectionDelta?) ==>
                  ds[i].precision == ExactSnapshot && ds[i].interval == None
  }

  /** A checkpoint carries the counters it was taken at, and no traffic. */
  predicate PresenceSaid(ds: seq<Draft>, c: Snapshot) {
    forall i :: 0 <= i < |ds| && ds[i].typ.PresenceCheckpoint? ==>
                  ds[i].observed == c.counters && ds[i].delta == NO_BYTES && ds[i].precision == PresenceOnly
  }

  /** A connection that stays. A counter that went back in either direction discards both. */
  ghost predicate StaysSays(s: Active, c: Snapshot, at: Time, confirmed: bool, own: seq<Draft>, s': Active) {
    && s'.counters == c.counters && s'.first == s.first && s'.baseline == s.baseline
    && s'.preexisting == s.preexisting
    && OfKind(own, ConnectionNew) == [] && OfKind(own, ConnectionBootstrap) == []
    && OfKind(own, ConnectionDisappeared) == [] && Exact(own) && PresenceSaid(own, c)
    && MetadataFollowed(s, c, own, s')
    && (Reports(own, CounterRegression) <==> Fell(c.counters, s.counters))
    && if Fell(c.counters, s.counters) then
         && OfKind(own, ConnectionDelta) == [] && OfKind(own, RelayClassificationChanged) == []
         && s'.monitored == s.monitored && s'.attr == s.attr && s'.last == s.last
       else
         var gain := Gained(c.counters, s.counters);
         && ConfirmationFollowed(s, confirmed, own, s') && GainSaid(gain, c, own, s')
         && s'.monitored == Plus(s.monitored, gain) && s'.last == at
  }

  /** The New of a connection carries what the frame gained, and the state remembers what it says. */
  ghost predicate NewSaid(c: Snapshot, at: Time, confirmed: bool, gain: Bytes, own: seq<Draft>, s': Active) {
    var said := OfKind(own, ConnectionNew);
    && |said| == 1 && said[0].delta == gain && said[0].observed == c.counters && said[0].monitored == s'.monitored
    && said[0].meta == c.meta && said[0].start == c.start && said[0].baseline == s'.baseline
    && said[0].attr == s'.attr && said[0].route == s'.route
    && s'.snap == c && s'.counters == c.counters && s'.last == at && s'.route == ClassifyRoute(c.meta.chains)
    && s'.attr == (if confirmed then ConfirmedRelayDuplicate else ClassifyInitialAttribution(c.meta))
    && OfKind(own, ConnectionDelta) == [] && OfKind(own, RelayClassificationChanged) == []
    && OfKind(own, ConnectionBootstrap) == [] && OfKind(own, ConnectionDisappeared) == []
    && OfKind(own, MetadataUpdated) == []
  }

  /** A connection without history: all its counters are traffic of this frame. */
  ghost predicate AppearsSays(c: Snapshot, at: Time, confirmed: bool, own: seq<Draft>, s': Active) {
    && NewSaid(c, at, confirmed, c.counters, own, s') && Exact(own)
    && OfKind(own, ConnectionNew)[0].details == NoDetails
    && s'.monitored == c.counters && s'.baseline == NO_BYTES && s'.first == at && !s'.preexisting
  }

  /** A connection that comes back: only what it gained while away is traffic, of the whole absence. */
  ghost predicate ReturnsSays(t: Tomb, c: Snapshot, at: Time, confirmed: bool, own: seq<Draft>, s': Active) {
    var gain := Gained(c.counters, t.state.counters);
    && NewSaid(c, at, confirmed, gain, own, s')
    && OfKind(own, ConnectionNew)[0].details == Reobserved
    && (gain == NO_BYTES ==> Exact(own))
    && (gain != NO_BYTES ==>
          && OfKind(own, ConnectionNew)[0].interval == Some(Interval(t.state.last, at))
          && OfKind(own, ConnectionNew)[0].precision == IntervalOnly)
    && (Reports(own, RegressionOnReobservation) <==> Fell(c.counters, t.state.counters))
    && s'.monitored == Plus(t.state.monitored, gain) && s'.baseline == t.state.baseline && s'.first == t.state.first
    && s'.preexisting == t.state.preexisting
  }

  /** A connection whose counters only become a baseline. */
  ghost predicate BaselineSays(c: Snapshot, at: Time, preexisting: bool, own: seq<Draft>, s': Active) {
    && |own| == 1 && own[0].typ.ConnectionBootstrap? && own[0].delta == NO_BYTES
    && own[0].baseline == c.counters && own[0].observed == c.counters && own[0].preexisting == preexisting
    && own[0].meta == c.meta && own[0].start == c.start && own[0].attr == s'.attr && own[0].route == s'.route
    && s' == Active(c, at, at, c.counters, NO_BYTES, c.counters, at, preexisting, ClassifyRoute(c.meta.chains),
                    ClassifyInitialAttribution(c.meta))
  }

  /** A connection that lived through a gap: its gain belongs to the gap as a whole, a counter that went back
      says nothing, and metadata and attribution wait for the next steady frame. */
  ghost predicate SurvivesSays(s: Active, c: Snapshot, at: Time, gapStart: Time, own: seq<Draft>, s': Active) {
    var gain := if Fell(c.counters, s.counters) then NO_BYTES else Gained(c.counters, s.counters);
    var said := OfKind(own, ConnectionDelta);
    && (gain == NO_BYTES ==> said == [])
    && (gain != NO_BYTES ==>
          && |said| == 1 && said[0].delta == gain && said[0].observed == c.counters && said[0].monitored == s'.monitored
          && said[0].interval == Some(Interval(gapStart, at)) && said[0].precision == IntervalOnly)
    && (Reports(own, RegressionAcrossGap) <==> Fell(c.counters, s.counters))
    && OfKind(own, ConnectionNew) == [] && OfKind(own, ConnectionBootstrap) == []
    && OfKind(own, ConnectionDisappeared) == [] && OfKind(own, RelayClassificationChanged) == []
    && OfKind(own, MetadataUpdated) == [] && PresenceSaid(own, c)
    && s' == s.(counters := c.counters, last := at, monitored := Plus(s.monitored, gain), evidence := s'.evidence)
  }

  // ---------------------------------------------------------------------------------------------
  // Every decision says so
  // ---------------------------------------------------------------------------------------------

  lemma {:induction false} OfKindConcat(a: seq<Draft>, b: seq<Draft>, typ: EventType)
    ensures OfKind(a + b, typ) == OfKind(a, typ) + OfKind(b, typ)
  {
    if b == [] {
      assert a + b == a;
    } else {
      OfKindConcat(a, b[..|b| - 1], typ);
      assert (a + b)[..|a + b| - 1] == a + b[..|b| - 1];
    }
  }

  lemma OfKindOne(d: Draft, typ: EventType)
    ensures OfKind([], typ) == []
    ensures OfKind([d], typ) == if d.typ == typ then [d] else []
  {
    assert [d][..|[d]| - 1] == [];
  }

  lemma ReportsConcat(a: seq<Draft>, b: seq<Draft>, issue: Issue)
    ensures Reports(a + b, issue) <==> Reports(a, issue) || Reports(b, issue)
  {
    if i :| 0 <= i < |a| && a[i].typ.CollectorHealth? && a[i].details == HealthIssue(issue) {
      assert (a + b)[i] == a[i];
    }
    if i :| 0 <= i < |b| && b[i].typ.CollectorHealth? && b[i].details == HealthIssue(issue) {
      assert (a + b)[|a| + i] == b[i];
    }
  }

  lemma ReportsOne(d: Draft, issue: Issue)
    ensures !Reports([], issue)
    ensures Reports([d], issue) <==> d.typ.CollectorHealth? && d.details == HealthIssue(issue)
  {
    assert [d][0] == d;
  }

  lemma BootstrapSays(c: Snapshot, at: Time)
    ensures BaselineSays(c, at, true, ObserveBootstrap(c, at).drafts, ObserveBootstrap(c, at).state)
    ensures BaselineSays(c, at, false, ObserveAfterGap(c, at).drafts, ObserveAfterGap(c, at).state)
  {
    hide ClassifyRoute, ClassifyInitialAttribution;
  }

  lemma NewSays(c: Snapshot, at: Time, confirmed: bool)
    ensures AppearsSays(c, at, confirmed, ObserveNew(c, at, confirmed).drafts, ObserveNew(c, at, confirmed).state)
  {
    hide ClassifyRoute, ClassifyInitialAttribution, OfKind;
    var d := ObserveNew(c, at, confirmed).drafts[0];
    forall typ ensures OfKind([d], typ) == if d.typ == typ then [d] else [] {
      OfKindOne(d, typ);
    }
  }

  /** What is in a list of at most two events. */
  lemma OfKindTwo(a: seq<Draft>, b: seq<Draft>)
    requires |a| <= 1 && |b| <= 1
    ensures forall typ :: OfKind(a + b, typ) == (if a != [] && a[0].typ == typ then a else [])
                                                + (if b != [] && b[0].typ == typ then b else [])
    ensures forall issue :: Reports(a + b, issue)
              <==> (a != [] && a[0].typ.CollectorHealth? && a[0].details == HealthIssue(issue))
                   || (b != [] && b[0].typ.CollectorHealth? && b[0].details == HealthIssue(issue))
  {
    forall typ
      ensures OfKind(a + b, typ) == (if a != [] && a[0].typ == typ then a else [])
                                    + (if b != [] && b[0].typ == typ then b else [])
    {
      OfKindConcat(a, b, typ);
      OfKindAtMostOne(a, typ);
      OfKindAtMostOne(b, typ);
    }
    forall issue
      ensures Reports(a + b, issue)
              <==> (a != [] && a[0].typ.CollectorHealth? && a[0].details == HealthIssue(issue))
                   || (b != [] && b[0].typ.CollectorHealth? && b[0].details == HealthIssue(issue))
    {
      ReportsConcat(a, b, issue);
      ReportsAtMostOne(a, issue);
      ReportsAtMostOne(b, issue);
    }
  }

  lemma OfKindAtMostOne(a: seq<Draft>, typ: EventType)
    requires |a| <= 1
    ensures OfKind(a, typ) == if a != [] && a[0].typ == typ then a else []
  {
    if a != [] {
      assert a == [a[0]];
      OfKindOne(a[0], typ);
    }
  }

  lemma ReportsAtMostOne(a: seq<Draft>, issue: Issue)
    requires |a| <= 1
    ensures Reports(a, issue) <==> a != [] && a[0].typ.CollectorHealth? && a[0].details == HealthIssue(issue)
  {
    if a != [] {
      assert a == [a[0]];
      ReportsOne(a[0], issue);
    }
  }

  /** The metadata part of a decision. */
  ghost predicate MetaPartSays(s: Active, c: Snapshot, at: Time, ds: seq<Draft>, s': Active) {
    && MetadataFollowed(s, c, ds, s')
    && (forall typ :: typ != MetadataUpdated && typ != CollectorHealth ==> OfKind(ds, typ) == [])
    && (forall issue :: issue != RoutingChainMutation ==> !Reports(ds, issue))
    && Exact(ds) && PresenceSaid(ds, c) && s' == s.(snap := s'.snap, route := s'.route, evidence := s'.evidence)
  }

  lemma EvolveMetaSays(prev: Active, c: Snapshot, at: Time)
    ensures MetaPartSays(prev, c, at, EvolveMeta(prev, c, at).0, EvolveMeta(prev, c, at).1)
  {
    hide ClassifyRoute, OfKind, Reports;
    var rerouted := prev.snap.meta.chains != c.meta.chains;
    var route := if rerouted then ClassifyRoute(c.meta.chains) else prev.route;
    if prev.snap.meta == c.meta {
      OfKindTwo([], []);
      assert [] + [] == EvolveMeta(prev, c, at).0;
    } else {
      OfKindTwo(if rerouted then [HealthOf(c.id, RoutingChainMutation, at)] else [], [MetadataDraft(c, route, at)]);
    }
  }

  /** The tail of a decision: a Delta for traffic, else a checkpoint or nothing. */
  lemma TailSays(s: Active, c: Snapshot, at: Time, draft: Draft)
    requires draft.typ == ConnectionDelta && draft.delta.up >= 0 && draft.delta.down >= 0
    ensures var (ds, s') := DeltaOrPresence(s, c, at, draft);
            && (forall typ :: typ != PresenceCheckpoint ==>
                  OfKind(ds, typ) == if draft.delta != NO_BYTES && typ == ConnectionDelta then [draft] else [])
            && (forall issue :: !Reports(ds, issue))
            && (draft.precision == ExactSnapshot && draft.interval == None ==> Exact(ds)) && PresenceSaid(ds, c)
            && s' == s.(evidence := s'.evidence)
  {
    hide OfKind, Reports;
    var ds := DeltaOrPresence(s, c, at, draft).0;
    OfKindTwo(ds, []);
    assert ds + [] == ds;
  }

  lemma GainedIsClamped(c: Snapshot, since: Bytes)
    ensures Clamped(CounterDelta(c, since)) == Gained(c.counters, since)
    ensures !Fell(c.counters, since) ==> CounterDelta(c, since) == Gained(c.counters, since)
    ensures Regressed(c, since) <==> Fell(c.counters, since)
  {
  }

  lemma RegressedSays(prev: Active, c: Snapshot, at: Time, confirmed: bool)
    requires Fell(c.counters, prev.counters)
    ensures var d := ObserveSteady(prev, c, at, confirmed); StaysSays(prev, c, at, confirmed, d.drafts, d.state)
  {
    hide OfKind, Reports, EvolveMeta, ClassifyRoute;
    EvolveMetaSays(prev, c, at);
    var (meta, s) := EvolveMeta(prev, c, at);
    var h := [HealthOf(c.id, CounterRegression, at)];
    OfKindTwo(h, []);
    assert h + [] == h;
    forall typ ensures OfKind(meta + h, typ) == OfKind(meta, typ) + OfKind(h, typ) {
      OfKindConcat(meta, h, typ);
    }
    forall issue ensures Reports(meta + h, issue) <==> Reports(meta, issue) || Reports(h, issue) {
      ReportsConcat(meta, h, issue);
    }
  }

  lemma ClassPartSays(s: Active, c: Snapshot, at: Time, confirmed: bool)
    ensures var (ds, s') := EvolveClass(s, c, at, confirmed);
            && ConfirmationFollowed(s, confirmed, ds, s')
            && (forall typ :: typ != RelayClassificationChanged ==> OfKind(ds, typ) == [])
            && (forall issue :: !Reports(ds, issue))
            && Exact(ds) && PresenceSaid(ds, c) && s' == s.(attr := s'.attr, evidence := s'.evidence)
  {
    hide OfKind, Reports;
    var ds := EvolveClass(s, c, at, confirmed).0;
    OfKindTwo(ds, []);
    assert ds + [] == ds;
  }

  lemma AdvancedSays(prev: Active, c: Snapshot, at: Time, confirmed: bool)
    requires !Fell(c.counters, prev.counters)
    ensures var d := ObserveSteady(prev, c, at, confirmed); StaysSays(prev, c, at, confirmed, d.drafts, d.state)
  {
    hide OfKind, Reports, EvolveMeta, EvolveClass, DeltaOrPresence, ClassifyRoute;
    EvolveMetaSays(prev, c, at);
    var (meta, s) := EvolveMeta(prev, c, at);
    ClassPartSays(s, c, at, confirmed);
    var (class_, s1) := EvolveClass(s, c, at, confirmed);
    var delta := Gained(c.counters, prev.counters);
    GainedIsClamped(c, prev.counters);
    var s2 := Observe(s1, c, at, delta);
    TailSays(s2, c, at, DeltaOf(s2, c, at, delta));
    var (tail, s3) := DeltaOrPresence(s2, c, at, DeltaOf(s2, c, at, delta));
    forall typ
      ensures OfKind(meta + class_ + tail, typ) == OfKind(meta, typ) + OfKind(class_, typ) + OfKind(tail, typ)
    {
      OfKindConcat(meta + class_, tail, typ);
      OfKindConcat(meta, class_, typ);
    }
    forall issue
      ensures Reports(meta + class_ + tail, issue)
              <==> Reports(meta, issue) || Reports(class_, issue) || Reports(tail, issue)
    {
      ReportsConcat(meta + class_, tail, issue);
      ReportsConcat(meta, class_, issue);
    }
  }

  lemma SteadySays(prev: Active, c: Snapshot, at: Time, confirmed: bool)
    ensures var d := ObserveSteady(prev, c, at, confirmed); StaysSays(prev, c, at, confirmed, d.drafts, d.state)
  {
    if Fell(c.counters, prev.counters) {
      RegressedSays(prev, c, at, confirmed);
    } else {
      AdvancedSays(prev, c, at, confirmed);
    }
  }

  lemma ReobservedSays(t: Tomb, c: Snapshot, at: Time, confirmed: bool)
    ensures var d := Reobserve(t, c, at, confirmed); ReturnsSays(t, c, at, confirmed, d.drafts, d.state)
  {
    hide OfKind, Reports, ClassifyRoute, ClassifyInitialAttribution;
    GainedIsClamped(c, t.state.counters);
    var delta := Gained(c.counters, t.state.counters);
    var s := ReobservedState(t, c, at, delta, InitialAttr(c, confirmed));
    OfKindTwo(if Fell(c.counters, t.state.counters) then [HealthOf(c.id, RegressionOnReobservation, at)] else [],
              [ReobservedDraft(t, s, c, at, delta)]);
  }

  lemma AcrossGapSays(prev: Active, c: Snapshot, at: Time, gapStart: Time)
    ensures var d := ObserveAcrossGap(prev, c, at, gapStart); SurvivesSays(prev, c, at, gapStart, d.drafts, d.state)
  {
    hide OfKind, Reports, DeltaOrPresence;
    GainedIsClamped(c, prev.counters);
    var fell := Fell(c.counters, prev.counters);
    var gain := if fell then NO_BYTES else Gained(c.counters, prev.counters);
    var s := Observe(prev.(evidence := if fell then at else prev.evidence), c, at, gain);
    var draft := DeltaOf(s, c, at, gain).(precision := IntervalOnly, interval := Some(Interval(gapStart, at)));
    TailSays(s, c, at, draft);
    var h := if fell then [HealthOf(c.id, RegressionAcrossGap, at)] else [];
    var tail := DeltaOrPresence(s, c, at, draft).0;
    OfKindTwo(h, []);
    assert h + [] == h;
    forall typ ensures OfKind(h + tail, typ) == OfKind(h, typ) + OfKind(tail, typ) {
      OfKindConcat(h, tail, typ);
    }
    ReportsConcat(h, tail, RegressionAcrossGap);
  }
}
