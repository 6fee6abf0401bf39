/** What the engine decides about one connection in one frame (engine.go, processFrameInternal): the
    events to emit and the connection's next state. */
module Decisions {
  import opened Types
  import opened Attribution
  import opened EventLog

  /** The observation state of a connection, live or kept in a tombstone. */
  datatype Active = Active(snap: Snapshot, first: Time, last: Time, counters: Bytes, monitored: Bytes, baseline: Bytes,
                           evidence: Time, preexisting: bool, route: Route, attr: Attr)

  datatype Tomb = Tomb(state: Active, at: Time)

  datatype Decision = Decision(drafts: seq<Draft>, state: Active, unique: Bytes)

  function Plain(typ: EventType, at: Time): Draft {
    Draft(typ, at, None, NO_META, "", NoRoute, NoAttr, NO_BYTES, NO_BYTES, NO_BYTES, NO_BYTES, false, None,
          ExactSnapshot, NoDetails)
  }

  function HealthOf(id: ConnId, issue: Issue, at: Time): Draft {
    Plain(CollectorHealth, at).(conn := Some(id), details := HealthIssue(issue))
  }

  function CounterDelta(c: Snapshot, since: Bytes): Bytes {
    Bytes(c.counters.up - since.up, c.counters.down - since.down)
  }

  function Clamped(b: Bytes): Bytes {
    Bytes(Max(b.up, 0), Max(b.down, 0))
  }

  predicate Regressed(c: Snapshot, since: Bytes) {
    c.counters.up < since.up || c.counters.down < since.down
  }

  predicate Moves(b: Bytes) {
    b.up > 0 || b.down > 0
  }

  // ---------------------------------------------------------------------------------------------
  // Durable evidence of an existing connection
  // ---------------------------------------------------------------------------------------------

  function PresenceOf(c: Snapshot, at: Time): Draft {
    Plain(PresenceCheckpoint, at).(conn := Some(c.id), observed := c.counters, precision := PresenceOnly)
  }

  function DeltaOf(s: Active, c: Snapshot, at: Time, delta: Bytes): Draft {
    Plain(ConnectionDelta, at).(conn := Some(c.id), meta := c.meta, route := s.route, attr := s.attr,
                                observed := c.counters, delta := delta, monitored := s.monitored,
                                baseline := s.baseline)
  }

  /** emitDeltaOrPresence: traffic emits a Delta; silence emits a checkpoint once per interval. */
  function DeltaOrPresence(s: Active, c: Snapshot, at: Time, draft: Draft): (seq<Draft>, Active) {
    if Moves(draft.delta) then ([draft], s.(evidence := at))
    else if at - s.evidence < CHECKPOINT_INTERVAL then ([], s)
    else ([PresenceOf(c, at)], s.(evidence := at))
  }

  // ---------------------------------------------------------------------------------------------
  // Steady state
  // ---------------------------------------------------------------------------------------------

  function MetadataDraft(c: Snapshot, route: Route, at: Time): Draft {
    Plain(MetadataUpdated, at).(conn := Some(c.id), meta := c.meta, route := route)
  }

  /** Metadata and routing evolution, before the counters are looked at. */
  function EvolveMeta(prev: Active, c: Snapshot, at: Time): (seq<Draft>, Active) {
    var rerouted := prev.snap.meta.chains != c.meta.chains;
    var route := if rerouted then ClassifyRoute(c.meta.chains) else prev.route;
    if prev.snap.meta == c.meta then ([], prev)
    else ((if rerouted then [HealthOf(c.id, RoutingChainMutation, at)] else []) + [MetadataDraft(c, route, at)],
          prev.(snap := c, route := route, evidence := at))
  }

  /** A confirmed relay pairing reclassifies the connection for good. */
  function EvolveClass(s: Active, c: Snapshot, at: Time, confirmed: bool): (seq<Draft>, Active) {
    if confirmed && !s.attr.ConfirmedRelayDuplicate? then
      ([Plain(RelayClassificationChanged, at).(conn := Some(c.id), attr := ConfirmedRelayDuplicate)],
       s.(attr := ConfirmedRelayDuplicate, evidence := at))
    else ([], s)
  }

  function Observe(s: Active, c: Snapshot, at: Time, delta: Bytes): Active {
    s.(counters := c.counters, last := at, monitored := Bytes(s.monitored.up + delta.up, s.monitored.down + delta.down))
  }

  function CountedUnique(attr: Attr, delta: Bytes): Bytes {
    if attr.ConfirmedRelayDuplicate? then NO_BYTES else delta
  }

  /** A live connection. A counter regression discards both directions of the frame's traffic. */
  function ObserveSteady(prev: Active, c: Snapshot, at: Time, confirmed: bool): Decision {
    var (meta, s) := EvolveMeta(prev, c, at);
    if Regressed(c, prev.counters) then
      Decision(meta + [HealthOf(c.id, CounterRegression, at)], s.(counters := c.counters, evidence := at), NO_BYTES)
    else
      var (class_, s1) := EvolveClass(s, c, at, confirmed);
      var delta := Clamped(CounterDelta(c, prev.counters));
      var s2 := Observe(s1, c, at, delta);
      var (tail, s3) := DeltaOrPresence(s2, c, at, DeltaOf(s2, c, at, delta));
      Decision(meta + class_ + tail, s3, CountedUnique(s2.attr, delta))
  }

  function InitialAttr(c: Snapshot, confirmed: bool): Attr {
    if confirmed then ConfirmedRelayDuplicate else ClassifyInitialAttribution(c.meta)
  }

  function NewDraft(s: Active, c: Snapshot, at: Time, delta: Bytes): Draft {
    Plain(ConnectionNew, at).(conn := Some(c.id), meta := c.meta, start := c.start, route := s.route, attr := s.attr,
                              observed := c.counters, delta := delta, monitored := s.monitored, baseline := s.baseline)
  }

  /** A connection with no usable history: its whole counters are new traffic. */
  function ObserveNew(c: Snapshot, at: Time, confirmed: bool): Decision {
    var s := Active(c, at, at, c.counters, c.counters, NO_BYTES, at, false, ClassifyRoute(c.meta.chains),
                    InitialAttr(c, confirmed));
    Decision([NewDraft(s, c, at, c.counters)], s, CountedUnique(s.attr, c.counters))
  }

  /** A connection that reappears with the same ID and start resumes its lifecycle. A regression is
      clamped in each direction separately. */
  function Reobserve(t: Tomb, c: Snapshot, at: Time, confirmed: bool): Decision {
    var delta := Clamped(CounterDelta(c, t.state.counters));
    var s := ReobservedState(t, c, at, delta, InitialAttr(c, confirmed));
    Decision(ReobservedDrafts(t, s, c, at, delta), s, CountedUnique(s.attr, delta))
  }

  function ReobservedDrafts(t: Tomb, s: Active, c: Snapshot, at: Time, delta: Bytes): seq<Draft> {
    (if Regressed(c, t.state.counters) then [HealthOf(c.id, RegressionOnReobservation, at)] else [])
    + [ReobservedDraft(t, s, c, at, delta)]
  }

  function ReobservedState(t: Tomb, c: Snapshot, at: Time, delta: Bytes, attr: Attr): Active {
    Active(c, t.state.first, at, c.counters,
           Bytes(t.state.monitored.up + delta.up, t.state.monitored.down + delta.down),
           t.state.baseline, at, t.state.preexisting, ClassifyRoute(c.meta.chains), attr)
  }

  /** Traffic since the last sighting is attributed to the whole interval of absence. */
  function ReobservedDraft(t: Tomb, s: Active, c: Snapshot, at: Time, delta: Bytes): Draft {
    var new_ := NewDraft(s, c, at, delta).(details := Reobserved);
    if Moves(delta) then new_.(precision := IntervalOnly, interval := Some(Interval(t.state.last, at))) else new_
  }

  // ---------------------------------------------------------------------------------------------
  // Bootstrap and recovery
  // ---------------------------------------------------------------------------------------------

  function BaselineState(c: Snapshot, at: Time, preexisting: bool): Active {
    Active(c, at, at, c.counters, NO_BYTES, c.counters, at, preexisting, ClassifyRoute(c.meta.chains),
           ClassifyInitialAttribution(c.meta))
  }

  function BaselineDraft(s: Active, c: Snapshot, at: Time): Draft {
    Plain(ConnectionBootstrap, at).(conn := Some(c.id), meta := c.meta, start := c.start, route := s.route,
                                    attr := s.attr, observed := c.counters, baseline := c.counters,
                                    preexisting := s.preexisting)
  }

  function ObserveBootstrap(c: Snapshot, at: Time): Decision {
    var s := BaselineState(c, at, true);
    Decision([BaselineDraft(s, c, at)], s, NO_BYTES)
  }

  /** First seen after a gap: existing counters are a baseline, not traffic. */
  function ObserveAfterGap(c: Snapshot, at: Time): Decision {
    var s := BaselineState(c, at, false);
    Decision([BaselineDraft(s, c, at).(precision := GapPostBaseline)], s, NO_BYTES)
  }

  /** Still there after a gap: the difference is attributed to the gap as a whole; a regression discards it. */
  function ObserveAcrossGap(prev: Active, c: Snapshot, at: Time, gapStart: Time): Decision {
    var regressed := Regressed(c, prev.counters);
    var delta := if regressed then NO_BYTES else CounterDelta(c, prev.counters);
    var s := Observe(prev.(evidence := if regressed then at else prev.evidence), c, at, delta);
    var draft := DeltaOf(s, c, at, delta).(precision := IntervalOnly, interval := Some(Interval(gapStart, at)));
    var (tail, s') := DeltaOrPresence(s, c, at, draft);
    Decision((if regressed then [HealthOf(c.id, RegressionAcrossGap, at)] else []) + tail, s', NO_BYTES)
  }

  /** The disappearance repeats the metadata but not the rule and chains. */
  function DisappearedDraft(id: ConnId, s: Active, at: Time): Draft {
    Plain(ConnectionDisappeared, at).(conn := Some(id),
                                      meta := s.snap.meta.(rule := "", rulePayload := "", chains := []),
                                      details := LastSeen(s.last, s.counters))
  }

  // ---------------------------------------------------------------------------------------------
  // Decisions keep state and log in agreement
  // ---------------------------------------------------------------------------------------------

  /** The log's view of a connection agrees with the engine's: same lifecycle total, same latest
      evidence while live, and, without reported regressions, monitored == last counter - baseline. */
  ghost predicate Agrees(t: Track, s: Active, live: bool) {
    && t.known && t.sum == s.monitored
    && (live ==> t.evidence == s.evidence)
    && (!t.regressed ==> s.counters == Bytes(s.baseline.up + s.monitored.up, s.baseline.down + s.monitored.down))
  }

  ghost predicate NotBoth(ds: seq<Draft>) {
    forall i, j :: 0 <= i < |ds| && 0 <= j < |ds| && ds[i].typ.ConnectionDelta? && ds[j].typ.PresenceCheckpoint? ==>
        ds[i].conn != ds[j].conn
  }

  predicate ProperTraffic(ds: seq<Draft>) {
    forall i :: 0 <= i < |ds| ==> ProperDelta(ds[i])
  }

  ghost predicate AllAt(ds: seq<Draft>, at: Time) {
    forall i :: 0 <= i < |ds| ==> ds[i].at == at
  }

  /** Everything a decision must get right, given what the log says beforehand. */
  ghost predicate Justified(t: Track, d: Decision, id: ConnId, at: Time) {
    && Only(d.drafts, id) && AllAt(d.drafts, at) && NotBoth(d.drafts) && ProperTraffic(d.drafts)
    && LegalRun(t, d.drafts, id)
    && Agrees(TrackFrom(t, d.drafts, id), d.state, true)
    && at - d.state.evidence < CHECKPOINT_INTERVAL
    && Contributions(d.drafts) == d.unique
  }

  /** Counters are never negative; the controller reports absolute byte counts. */
  predicate SaneSnapshot(c: Snapshot) {
    c.counters.up >= 0 && c.counters.down >= 0
  }

  /** A prefix of a decision: legal so far, and state and log agree again. */
  ghost predicate Part(t: Track, ds: seq<Draft>, s: Active, id: ConnId, at: Time) {
    && Only(ds, id) && AllAt(ds, at) && ProperTraffic(ds)
    && LegalRun(t, ds, id) && Agrees(TrackFrom(t, ds, id), s, true)
  }

  lemma {:induction false} LegalRunConcat(t: Track, a: seq<Draft>, b: seq<Draft>, id: ConnId)
    ensures LegalRun(t, a + b, id) <==> LegalRun(t, a, id) && LegalRun(TrackFrom(t, a, id), b, id)
  {
    hide Legal, Step;
    if b == [] {
      assert a + b == a;
    } else {
      LegalRunConcat(t, a, b[..|b| - 1], id);
      assert (a + b)[..|a + b| - 1] == a + b[..|b| - 1];
      TrackConcat(t, a, b[..|b| - 1], id);
    }
  }

  lemma PartsCompose(t: Track, a: seq<Draft>, b: seq<Draft>, s: Active, id: ConnId, at: Time)
    requires Only(a, id) && AllAt(a, at) && ProperTraffic(a) && LegalRun(t, a, id)
    requires Part(TrackFrom(t, a, id), b, s, id, at)
    ensures Part(t, a + b, s, id, at)
  {
    hide Legal, Step, Agrees;
    LegalRunConcat(t, a, b, id);
    TrackConcat(t, a, b, id);
  }

  /** A one-event segment. */
  lemma SinglePart(t: Track, d: Draft, s: Active, id: ConnId, at: Time)
    requires Only([d], id) && d.at == at && ProperDelta(d)
    requires Legal(t, false, d) && Agrees(Step(t, d, id), s, true)
    ensures Part(t, [d], s, id, at)
  {
    hide Legal, Step, Agrees;
    SingleTrack(t, d, id);
    assert [d][..|[d]| - 1] == [];
    assert LegalRun(t, [d][..|[d]| - 1], id) && TrackFrom(t, [d][..|[d]| - 1], id) == t;
  }

  lemma SingleTrack(t: Track, d: Draft, id: ConnId)
    ensures TrackFrom(t, [d], id) == Step(t, d, id)
  {
    assert [d][..|[d]| - 1] == [];
  }

  lemma HealthPart(t: Track, s: Active, c: Snapshot, at: Time)
    requires Agrees(t, s, true)
    ensures Part(t, [HealthOf(c.id, RoutingChainMutation, at)], s.(evidence := at), c.id, at)
    ensures HealthOf(c.id, RoutingChainMutation, at).typ.CollectorHealth?
  {
    SinglePart(t, HealthOf(c.id, RoutingChainMutation, at), s.(evidence := at), c.id, at);
  }

  lemma MetadataPart(t: Track, s: Active, c: Snapshot, route: Route, at: Time)
    requires Agrees(t, s, true)
    ensures Part(t, [MetadataDraft(c, route, at)], s.(snap := c, route := route, evidence := at), c.id, at)
    ensures MetadataDraft(c, route, at).typ.MetadataUpdated?
  {
    SinglePart(t, MetadataDraft(c, route, at), s.(snap := c, route := route, evidence := at), c.id, at);
  }

  lemma MetaPart(t: Track, prev: Active, c: Snapshot, at: Time)
    requires Agrees(t, prev, true)
    ensures Part(t, EvolveMeta(prev, c, at).0, EvolveMeta(prev, c, at).1, c.id, at)
    ensures EvolveMeta(prev, c, at).1.counters == prev.counters
    ensures forall d :: d in EvolveMeta(prev, c, at).0 ==> d.typ.CollectorHealth? || d.typ.MetadataUpdated?
  {
    hide ClassifyRoute, Plain, HealthOf, MetadataDraft, Agrees, LegalRun, TrackFrom, AllAt, Only, ProperTraffic;
    if prev.snap.meta != c.meta {
      var rerouted := prev.snap.meta.chains != c.meta.chains;
      var route := if rerouted then ClassifyRoute(c.meta.chains) else prev.route;
      var m, h := MetadataDraft(c, route, at), HealthOf(c.id, RoutingChainMutation, at);
      if rerouted {
        HealthPart(t, prev, c, at);
        MetadataPart(TrackFrom(t, [h], c.id), prev.(evidence := at), c, route, at);
        PartsCompose(t, [h], [m], prev.(snap := c, route := route, evidence := at), c.id, at);
      } else {
        MetadataPart(t, prev, c, route, at);
        assert [] + [m] == [m];
      }
    } else {
      EmptyPart(t, prev, c.id, at);
    }
  }

  lemma EmptyPart(t: Track, s: Active, id: ConnId, at: Time)
    requires Agrees(t, s, true)
    ensures Part(t, [], s, id, at)
  {
  }

  lemma ClassPart(t: Track, s: Active, c: Snapshot, at: Time, confirmed: bool)
    requires Agrees(t, s, true)
    ensures Part(t, EvolveClass(s, c, at, confirmed).0, EvolveClass(s, c, at, confirmed).1, c.id, at)
    ensures EvolveClass(s, c, at, confirmed).1.counters == s.counters
    ensures forall d :: d in EvolveClass(s, c, at, confirmed).0 ==> d.typ.RelayClassificationChanged?
  {
    if confirmed && !s.attr.ConfirmedRelayDuplicate? {
      var d := Plain(RelayClassificationChanged, at).(conn := Some(c.id), attr := ConfirmedRelayDuplicate);
      SinglePart(t, d, s.(attr := ConfirmedRelayDuplicate, evidence := at), c.id, at);
    }
  }

  /** The last part: counters move forward, and traffic or a due checkpoint is emitted. */
  lemma EvidencePart(t: Track, s: Active, c: Snapshot, at: Time, draft: Draft)
    requires Agrees(t, s, true) && !Regressed(c, s.counters)
    requires draft.typ.ConnectionDelta? && draft.conn == Some(c.id) && draft.at == at
    requires draft.delta == CounterDelta(c, s.counters)
    requires draft.monitored == Observe(s, c, at, draft.delta).monitored
    ensures var r := DeltaOrPresence(Observe(s, c, at, draft.delta), c, at, draft);
            && Part(t, r.0, r.1, c.id, at)
            && at - r.1.evidence < CHECKPOINT_INTERVAL
            && (r.0 == [] || (|r.0| == 1 && (r.0[0] == draft || r.0[0].typ.PresenceCheckpoint?)))
            && (r.0 == [draft] <==> Moves(draft.delta))
  {
    var s' := Observe(s, c, at, draft.delta);
    if Moves(draft.delta) {
      SinglePart(t, draft, s'.(evidence := at), c.id, at);
    } else if at - s'.evidence >= CHECKPOINT_INTERVAL {
      SinglePart(t, PresenceOf(c, at), s'.(evidence := at), c.id, at);
    }
  }

  /** Events other than New, Delta and Residual contribute no bytes. */
  lemma {:induction false} QuietContributions(ds: seq<Draft>)
    requires forall d :: d in ds ==>
               d.typ.CollectorHealth? || d.typ.MetadataUpdated? || d.typ.RelayClassificationChanged?
    ensures Contributions(ds) == NO_BYTES
  {
    if ds != [] {
      assert ds[|ds| - 1] in ds;
      QuietContributions(ds[..|ds| - 1]);
    }
  }

  lemma AppendedContribution(ds: seq<Draft>, d: Draft)
    requires Contributions(ds) == NO_BYTES
    ensures Contributions(ds + [d]) == Contribution(d)
  {
    hide Contribution;
    assert (ds + [d])[..|ds|] == ds;
  }

  lemma RegressionPart(t: Track, s: Active, c: Snapshot, issue: Issue, at: Time)
    requires Agrees(t, s, true) && (issue.CounterRegression? || issue.RegressionAcrossGap?)
    ensures Part(t, [HealthOf(c.id, issue, at)], s.(counters := c.counters, evidence := at), c.id, at)
  {
    SinglePart(t, HealthOf(c.id, issue, at), s.(counters := c.counters, evidence := at), c.id, at);
  }

  lemma SteadyRegressionIsSound(t: Track, prev: Active, c: Snapshot, at: Time, confirmed: bool)
    requires Agrees(t, prev, true) && Regressed(c, prev.counters)
    ensures Justified(t, ObserveSteady(prev, c, at, confirmed), c.id, at)
  {
    hide Agrees, EvolveMeta, LegalRun, TrackFrom, Plain, Contribution, HealthOf;
    var (meta, s) := EvolveMeta(prev, c, at);
    var h := HealthOf(c.id, CounterRegression, at);
    MetaPart(t, prev, c, at);
    RegressionPart(TrackFrom(t, meta, c.id), s, c, CounterRegression, at);
    PartsCompose(t, meta, [h], s.(counters := c.counters, evidence := at), c.id, at);
    HealthIsHealth(c.id, CounterRegression, at);
    QuietContributions(meta + [h]);
  }

  lemma SteadyTrafficIsSound(t: Track, prev: Active, c: Snapshot, at: Time, confirmed: bool)
    requires Agrees(t, prev, true) && !Regressed(c, prev.counters)
    ensures Justified(t, ObserveSteady(prev, c, at, confirmed), c.id, at)
  {
    hide Agrees, EvolveMeta, EvolveClass, DeltaOrPresence, LegalRun, TrackFrom, Plain, Contribution, Contributions;
    var (meta, s) := EvolveMeta(prev, c, at);
    MetaPart(t, prev, c, at);
    var t1 := TrackFrom(t, meta, c.id);
    var (class_, s1) := EvolveClass(s, c, at, confirmed);
    ClassPart(t1, s, c, at, confirmed);
    var delta := Clamped(CounterDelta(c, prev.counters));
    var s2 := Observe(s1, c, at, delta);
    var draft := DeltaOf(s2, c, at, delta);
    DeltaShape(s2, c, at, delta);
    var (tail, s3) := DeltaOrPresence(s2, c, at, draft);
    EvidencePart(TrackFrom(t1, class_, c.id), s1, c, at, draft);
    PartsCompose(t1, class_, tail, s3, c.id, at);
    PartsCompose(t, meta, class_ + tail, s3, c.id, at);
    assert meta + class_ + tail == meta + (class_ + tail);
    QuietContributions(meta + class_);
    SteadyContribution(meta + class_, tail, draft, s2.attr);
  }

  lemma SteadyIsSound(t: Track, prev: Active, c: Snapshot, at: Time, confirmed: bool)
    requires Agrees(t, prev, true)
    ensures Justified(t, ObserveSteady(prev, c, at, confirmed), c.id, at)
  {
    hide Justified, ObserveSteady, Agrees;
    if Regressed(c, prev.counters) {
      SteadyRegressionIsSound(t, prev, c, at, confirmed);
    } else {
      SteadyTrafficIsSound(t, prev, c, at, confirmed);
    }
  }

  lemma HealthIsHealth(id: ConnId, issue: Issue, at: Time)
    ensures HealthOf(id, issue, at).typ.CollectorHealth?
  {
  }

  lemma DeltaShape(s: Active, c: Snapshot, at: Time, delta: Bytes)
    ensures var d := DeltaOf(s, c, at, delta);
            d.typ.ConnectionDelta? && d.conn == Some(c.id) && d.at == at && d.delta == delta
                && d.monitored == s.monitored
            && d.attr == s.attr && d.precision.ExactSnapshot?
  {
  }

  /** The tail of a steady decision contributes what the frame counts as uniquely observed. */
  lemma SteadyContribution(quiet: seq<Draft>, tail: seq<Draft>, draft: Draft, attr: Attr)
    requires Contributions(quiet) == NO_BYTES
    requires draft.typ.ConnectionDelta? && draft.attr == attr && draft.precision.ExactSnapshot?
    requires tail == [] || (|tail| == 1 && (tail[0] == draft || tail[0].typ.PresenceCheckpoint?))
    requires (tail == [draft] <==> Moves(draft.delta)) && draft.delta.up >= 0 && draft.delta.down >= 0
    ensures Contributions(quiet + tail) == CountedUnique(attr, draft.delta)
  {
    hide Contributions;
    if tail == [] {
      assert quiet + tail == quiet;
    } else if Moves(draft.delta) {
      AppendedContribution(quiet, draft);
    } else {
      assert tail == [tail[0]];
      AppendedContribution(quiet, tail[0]);
    }
  }

  // ---------------------------------------------------------------------------------------------
  // New, re-observed and recovered connections
  // ---------------------------------------------------------------------------------------------

  lemma SingleSound(t: Track, d: Draft, s: Active, unique: Bytes, id: ConnId, at: Time)
    requires Part(t, [d], s, id, at) && s.evidence == at && Contribution(d) == unique
    ensures Justified(t, Decision([d], s, unique), id, at)
  {
    hide Contribution, LegalRun, Agrees;
    assert Contributions([]) == NO_BYTES && [] + [d] == [d];
    AppendedContribution([], d);
  }

  lemma NewIsSound(t: Track, c: Snapshot, at: Time, confirmed: bool)
    requires SaneSnapshot(c)
    ensures Justified(t, ObserveNew(c, at, confirmed), c.id, at)
  {
    hide ClassifyRoute, InitialAttr;
    var r := ObserveNew(c, at, confirmed);
    SinglePart(t, r.drafts[0], r.state, c.id, at);
    SingleSound(t, r.drafts[0], r.state, r.unique, c.id, at);
  }

  lemma BootstrapIsSound(t: Track, c: Snapshot, at: Time)
    ensures Justified(t, ObserveBootstrap(c, at), c.id, at)
  {
    hide ClassifyRoute, ClassifyInitialAttribution;
    var r := ObserveBootstrap(c, at);
    SinglePart(t, r.drafts[0], r.state, c.id, at);
    SingleSound(t, r.drafts[0], r.state, r.unique, c.id, at);
  }

  lemma AfterGapIsSound(t: Track, c: Snapshot, at: Time)
    ensures Justified(t, ObserveAfterGap(c, at), c.id, at)
  {
    hide ClassifyRoute, ClassifyInitialAttribution;
    var r := ObserveAfterGap(c, at);
    SinglePart(t, r.drafts[0], r.state, c.id, at);
    SingleSound(t, r.drafts[0], r.state, r.unique, c.id, at);
  }

  lemma ReportThenSound(t: Track, h: Draft, d: Draft, s: Active, unique: Bytes, id: ConnId, at: Time)
    requires Part(t, [h] + [d], s, id, at) && s.evidence == at && Contribution(d) == unique
    requires h.typ.CollectorHealth? && d.typ.ConnectionNew?
    ensures Justified(t, Decision([h] + [d], s, unique), id, at)
  {
    hide Contribution, LegalRun, Agrees, ProperDelta;
    QuietContributions([h]);
    AppendedContribution([h], d);
  }

  lemma ReobservedPart(t: Track, tomb: Tomb, c: Snapshot, at: Time, confirmed: bool)
    requires Agrees(t, tomb.state, false)
    ensures var r := Reobserve(tomb, c, at, confirmed);
            var d := ReobservedDraft(tomb, r.state, c, at, Clamped(CounterDelta(c, tomb.state.counters)));
            && d.typ.ConnectionNew? && r.state.evidence == at && Contribution(d) == r.unique
            && (!Regressed(c, tomb.state.counters) ==> Part(t, [d], r.state, c.id, at))
  {
    hide ClassifyRoute, InitialAttr, LegalRun;
    var r := Reobserve(tomb, c, at, confirmed);
    var d := ReobservedDraft(tomb, r.state, c, at, Clamped(CounterDelta(c, tomb.state.counters)));
    if !Regressed(c, tomb.state.counters) {
      SinglePart(t, d, r.state, c.id, at);
    }
  }

  lemma ReobservedAfterReport(t: Track, tomb: Tomb, c: Snapshot, at: Time, confirmed: bool)
    requires Agrees(t, tomb.state, false) && Regressed(c, tomb.state.counters)
    ensures var r, h := Reobserve(tomb, c, at, confirmed), HealthOf(c.id, RegressionOnReobservation, at);
            var d := ReobservedDraft(tomb, r.state, c, at, Clamped(CounterDelta(c, tomb.state.counters)));
            h.typ.CollectorHealth? && Part(t, [h] + [d], r.state, c.id, at)
  {
    hide ClassifyRoute, InitialAttr, LegalRun, Contribution;
    var r, h := Reobserve(tomb, c, at, confirmed), HealthOf(c.id, RegressionOnReobservation, at);
    var d := ReobservedDraft(tomb, r.state, c, at, Clamped(CounterDelta(c, tomb.state.counters)));
    SinglePart(t, h, tomb.state.(evidence := at, counters := c.counters), c.id, at);
    SingleTrack(t, h, c.id);
    SinglePart(Step(t, h, c.id), d, r.state, c.id, at);
    PartsCompose(t, [h], [d], r.state, c.id, at);
  }

  /** A re-observation New after an optional regression report; the tombstone carries the old total. */
  lemma ReobserveIsSound(t: Track, tomb: Tomb, c: Snapshot, at: Time, confirmed: bool)
    requires Agrees(t, tomb.state, false)
    ensures Justified(t, Reobserve(tomb, c, at, confirmed), c.id, at)
  {
    hide Justified, Part, Contribution, HealthOf, ReobservedDraft, ReobservedState, InitialAttr, Agrees;
    var r, h := Reobserve(tomb, c, at, confirmed), HealthOf(c.id, RegressionOnReobservation, at);
    var d := ReobservedDraft(tomb, r.state, c, at, Clamped(CounterDelta(c, tomb.state.counters)));
    ReobservedPart(t, tomb, c, at, confirmed);
    if Regressed(c, tomb.state.counters) {
      ReobservedAfterReport(t, tomb, c, at, confirmed);
      assert r.drafts == [h] + [d];
      ReportThenSound(t, h, d, r.state, r.unique, c.id, at);
    } else {
      assert r.drafts == [d];
      SingleSound(t, d, r.state, r.unique, c.id, at);
    }
  }

  lemma AcrossGapIsSound(t: Track, prev: Active, c: Snapshot, at: Time, gapStart: Time)
    requires Agrees(t, prev, true)
    ensures Justified(t, ObserveAcrossGap(prev, c, at, gapStart), c.id, at)
  {
    hide DeltaOrPresence, LegalRun, Plain, Contribution;
    var regressed := Regressed(c, prev.counters);
    var h := HealthOf(c.id, RegressionAcrossGap, at);
    if regressed {
      RegressionPart(t, prev.(last := at), c, RegressionAcrossGap, at);
      HealthIsHealth(c.id, RegressionAcrossGap, at);
      QuietContributions([h]);
      AfterRegressionNothing(prev, c, at, gapStart);
    } else {
      var delta := CounterDelta(c, prev.counters);
      var s := Observe(prev, c, at, delta);
      var draft := DeltaOf(s, c, at, delta).(precision := IntervalOnly, interval := Some(Interval(gapStart, at)));
      DeltaShape(s, c, at, delta);
      EvidencePart(t, prev, c, at, draft);
      var r := DeltaOrPresence(s, c, at, draft);
      GapContribution(r.0, draft);
      assert [] + r.0 == r.0;
    }
  }

  /** After a reported regression there is neither traffic nor a due checkpoint. */
  lemma AfterRegressionNothing(prev: Active, c: Snapshot, at: Time, gapStart: Time)
    requires Regressed(c, prev.counters)
    ensures var r := ObserveAcrossGap(prev, c, at, gapStart);
            r.drafts == [HealthOf(c.id, RegressionAcrossGap, at)] && r.unique == NO_BYTES
            && r.state == prev.(counters := c.counters, evidence := at, last := at)
  {
  }

  /** Inside a recovery frame the deltas are part of the gap and contribute nothing of their own. */
  lemma GapContribution(tail: seq<Draft>, draft: Draft)
    requires draft.typ.ConnectionDelta? && draft.precision.IntervalOnly?
    requires tail == [] || (|tail| == 1 && (tail[0] == draft || tail[0].typ.PresenceCheckpoint?))
    ensures Contributions(tail) == NO_BYTES
  {
    if tail != [] {
      assert tail == [tail[0]] && [] + [tail[0]] == tail && Contributions([]) == NO_BYTES;
      AppendedContribution([], tail[0]);
    }
  }
}
