/** The state machine itself (engine.go, StateEngine): fields mutated event by event, proved to follow
    the specification in Engine. Connection states are values here, not shared references. */
module StateEngine {
  import opened Types
  import opened Attribution
  import opened EventLog
  import opened Decisions
  import opened Tombstones
  import opened Engine
  import opened EngineSafety
  import opened EngineRuns

  lemma EmitNothing(e: Engine)
    ensures Emit(e, []) == e
  {
    assert e.log + Stamped([], e.session, e.epoch, e.frame, e.seqno) == e.log;
  }

  lemma ThenEmit(e: Engine, a: seq<Draft>, d: Draft)
    ensures Emit(Emit(e, a), [d]) == Emit(e, a + [d])
  {
    EmitTwice(e, a, [d]);
  }

  lemma {:induction false} FrameDeltasAt(e: Engine, conns: seq<Snapshot>, c: Snapshot)
    requires DistinctIds(conns) && c in conns
    ensures c.id in FrameDeltas(e, conns) && FrameDeltas(e, conns)[c.id] == FrameDelta(e, c)
  {
    hide FrameDelta;
    var front, last := conns[..|conns| - 1], conns[|conns| - 1];
    assert conns == front + [last];
    if c != last {
      assert c in front;
      FrameDeltasAt(e, front, c);
      assert c.id != last.id;
    }
  }

  /** The tombstones of exactly the re-observed connections of the list. */
  ghost predicate ReobservedAmong(e: Engine, conns: seq<Snapshot>, found: map<ConnId, Tomb>) {
    && (forall id :: id in found ==> exists c :: c in conns && c.id == id)
    && (forall c :: c in conns ==> (c.id in found <==> IsReobservation(e, c)))
    && (forall c :: c in conns && IsReobservation(e, c) ==> found[c.id] == e.tombs.stones[c.id].value)
  }

  lemma NoneReobserved(e: Engine)
    ensures ReobservedAmong(e, [], map[])
  {
  }

  lemma ReobservedStep(e: Engine, conns: seq<Snapshot>, i: nat, found: map<ConnId, Tomb>)
    requires DistinctIds(conns) && i < |conns| && ReobservedAmong(e, conns[..i], found)
    ensures IsReobservation(e, conns[i]) ==> conns[i].id in e.tombs.stones
    ensures ReobservedAmong(e, conns[..i + 1], if IsReobservation(e, conns[i])
                            then found[conns[i].id := e.tombs.stones[conns[i].id].value] else found)
  {
    var c := conns[i];
    assert conns[..i + 1] == conns[..i] + [c];
    assert forall x :: x in conns[..i] ==> x.id != c.id;
    if IsReobservation(e, c) {
      hide IsReobservation;
      assert c in conns[..i + 1];
    }
  }

  class StateEngine {
    const session: SessionId
    const createdAt: Time
    const tombs: TombstoneStore<Tomb>
    var epochID: nat
    var frameSequence: nat
    var eventSequence: nat
    var activeMap: map<ConnId, Active>
    var prevTotal: Bytes
    var hasEverBeenHealthy: bool
    var gapIsOpen: bool
    var gapStart: Time
    var lastHealthyAt: Time
    var isBootstrapFrame: bool
    var unobservedGapEmitted: bool
    /** The sink: every event emitted so far. */
    var sink: seq<Event>

    function Abs(): Engine
      reads this, tombs
    {
      Engine(session, epochID, frameSequence, eventSequence, activeMap, tombs.Abs(), prevTotal, hasEverBeenHealthy,
             gapIsOpen, gapStart, lastHealthyAt, isBootstrapFrame, createdAt, unobservedGapEmitted, sink)
    }

    constructor (session: SessionId, createdAt: Time)
      ensures Abs() == NewEngine(session, createdAt) && fresh(tombs)
    {
      this.session, this.createdAt := session, createdAt;
      epochID, frameSequence, eventSequence, activeMap := 1, 0, 0, map[];
      prevTotal, hasEverBeenHealthy, gapIsOpen, gapStart, lastHealthyAt := NO_BYTES, false, false, ZERO_TIME, ZERO_TIME;
      isBootstrapFrame, unobservedGapEmitted, sink := true, false, [];
      tombs := new TombstoneStore();
    }

    method EmitEvent(d: Draft)
      modifies this
      ensures Abs() == Emit(old(Abs()), [d])
    {
      eventSequence := eventSequence + 1;
      sink := sink + [Event(Pos(session, epochID, frameSequence, eventSequence), d)];
      assert Stamped([d], session, epochID, frameSequence, eventSequence - 1)
             == [Event(Pos(session, epochID, frameSequence, eventSequence), d)];
    }

    method EmitUnobservedIntervalGap(start: Time, end: Time)
      modifies this
      ensures Abs() == UnobservedGap(old(Abs()), start, end)
    {
      if unobservedGapEmitted || start == ZERO_TIME || end <= start {
        return;
      }
      if end - start < UNREACHABLE_GAP_MIN {
        return;
      }
      unobservedGapEmitted := true;
      EmitEvent(GapOpenedDraft(start, end, UNREACHABLE));
      EmitEvent(GapClosedDraft(start, end, GapReason(UNREACHABLE)));
      ThenEmit(old(Abs()).(unobserved := true), [GapOpenedDraft(start, end, UNREACHABLE)],
               GapClosedDraft(start, end, GapReason(UNREACHABLE)));
      assert [GapOpenedDraft(start, end, UNREACHABLE)] + [GapClosedDraft(start, end, GapReason(UNREACHABLE))]
             == [GapOpenedDraft(start, end, UNREACHABLE), GapClosedDraft(start, end, GapReason(UNREACHABLE))];
    }

    method EmitDeltaOrPresence(s: Active, c: Snapshot, at: Time, draft: Draft) returns (s': Active)
      modifies this
      ensures Abs() == Emit(old(Abs()), DeltaOrPresence(s, c, at, draft).0)
      ensures s' == DeltaOrPresence(s, c, at, draft).1
    {
      s' := s;
      if draft.delta.up > 0 || draft.delta.down > 0 {
        EmitEvent(draft);
        s' := s.(evidence := at);
        return;
      }
      if at - s.evidence < CHECKPOINT_INTERVAL {
        EmitNothing(Abs());
        return;
      }
      EmitEvent(PresenceOf(c, at));
      s' := s.(evidence := at);
    }

    method EvolveMetadata(prev: Active, c: Snapshot, at: Time) returns (s: Active)
      modifies this
      ensures Abs() == Emit(old(Abs()), EvolveMeta(prev, c, at).0) && s == EvolveMeta(prev, c, at).1
    {
      hide ClassifyRoute, HealthOf, MetadataDraft, Emit;
      s := prev;
      var chainsChanged := prev.snap.meta.chains != c.meta.chains;
      var metaChanged := prev.snap.meta != c.meta;
      EmitNothing(Abs());
      if chainsChanged {
        EmitEvent(HealthOf(c.id, RoutingChainMutation, at));
        s := s.(route := ClassifyRoute(c.meta.chains), evidence := at);
      }
      if metaChanged {
        s := s.(snap := c);
        ThenEmit(old(Abs()), if chainsChanged then [HealthOf(c.id, RoutingChainMutation, at)] else [],
                 MetadataDraft(c, s.route, at));
        EmitEvent(MetadataDraft(c, s.route, at));
        s := s.(evidence := at);
      }
    }

    method EvolveAttribution(prev: Active, c: Snapshot, at: Time, confirmed: bool) returns (s: Active)
      modifies this
      ensures Abs() == Emit(old(Abs()), EvolveClass(prev, c, at, confirmed).0)
              && s == EvolveClass(prev, c, at, confirmed).1
    {
      s := prev;
      var target := if confirmed then ConfirmedRelayDuplicate else prev.attr;
      EmitNothing(Abs());
      if target != prev.attr {
        EmitEvent(Plain(RelayClassificationChanged, at).(conn := Some(c.id), attr := target));
        s := s.(attr := target, evidence := at);
      }
    }

    /** A live connection whose counters went back: reported, and the frame's traffic discarded. */
    method ReportRegression(s: Active, c: Snapshot, at: Time)
      modifies this
      ensures var h := HealthOf(c.id, CounterRegression, at);
              var s' := s.(counters := c.counters, evidence := at);
              Abs() == Emit(old(Abs()), [h]).(active := old(activeMap)[c.id := s'])
    {
      hide HealthOf, Emit;
      EmitKeepsRest(Abs(), [HealthOf(c.id, CounterRegression, at)]);
      EmitEvent(HealthOf(c.id, CounterRegression, at));
      activeMap := activeMap[c.id := s.(counters := c.counters, evidence := at)];
    }

    /** A live connection whose counters moved on: attribution, then traffic or a checkpoint. */
    method CountTraffic(prev: Active, c: Snapshot, at: Time, delta: Bytes, confirmed: bool) returns (unique: Bytes)
      modifies this
      ensures var (class_, s1) := EvolveClass(prev, c, at, confirmed);
              var s2 := Observe(s1, c, at, delta);
              var (tail, s3) := DeltaOrPresence(s2, c, at, DeltaOf(s2, c, at, delta));
              && Abs() == Emit(old(Abs()), class_ + tail).(active := old(activeMap)[c.id := s3])
              && unique == CountedUnique(s2.attr, delta)
    {
      hide EvolveClass, DeltaOrPresence, DeltaOf, Emit;
      ghost var start := Abs();
      var s := EvolveAttribution(prev, c, at, confirmed);
      ghost var class_ := EvolveClass(prev, c, at, confirmed).0;
      s := s.(counters := c.counters, last := at,
              monitored := Bytes(s.monitored.up + delta.up, s.monitored.down + delta.down));
      unique := if s.attr == ConfirmedRelayDuplicate then NO_BYTES else delta;
      var draft := DeltaOf(s, c, at, delta);
      ghost var tail := DeltaOrPresence(s, c, at, draft).0;
      s := EmitDeltaOrPresence(s, c, at, draft);
      EmitTwice(start, class_, tail);
      EmitKeepsRest(start, class_ + tail);
      activeMap := activeMap[c.id := s];
    }

    /** A live connection in a steady frame. */
    method ProcessLive(c: Snapshot, at: Time, delta: Bytes, confirmed: bool) returns (unique: Bytes)
      requires c.id in activeMap && delta == Clamped(CounterDelta(c, activeMap[c.id].counters))
      modifies this
      ensures var d := ObserveSteady(old(activeMap)[c.id], c, at, confirmed);
              Abs() == Emit(old(Abs()), d.drafts).(active := old(activeMap)[c.id := d.state]) && unique == d.unique
    {
      hide EvolveMeta, EvolveClass, DeltaOrPresence, HealthOf, DeltaOf, Emit, Observe, CountedUnique;
      var prev := activeMap[c.id];
      ghost var start := Abs();
      ghost var meta, state := EvolveMeta(prev, c, at).0, EvolveMeta(prev, c, at).1;
      EmitKeepsRest(start, meta);
      var s := EvolveMetadata(prev, c, at);
      if c.counters.up < prev.counters.up || c.counters.down < prev.counters.down {
        ReportRegression(s, c, at);
        EmitTwice(start, meta, [HealthOf(c.id, CounterRegression, at)]);
        return NO_BYTES;
      }
      unique := CountTraffic(s, c, at, delta, confirmed);
      ghost var class_, s1 := EvolveClass(state, c, at, confirmed).0, EvolveClass(state, c, at, confirmed).1;
      ghost var s2 := Observe(s1, c, at, delta);
      ghost var tail := DeltaOrPresence(s2, c, at, DeltaOf(s2, c, at, delta)).0;
      EmitTwice(start, meta, class_ + tail);
      assert meta + (class_ + tail) == meta + class_ + tail;
    }

    method EmitReobservation(s: Active, tomb: Tomb, c: Snapshot, at: Time, delta: Bytes)
      modifies this
      ensures Abs() == Emit(old(Abs()), ReobservedDrafts(tomb, s, c, at, delta))
    {
      hide Emit, HealthOf, NewDraft;
      ghost var head := if Regressed(c, tomb.state.counters) then [HealthOf(c.id, RegressionOnReobservation, at)]
          else [];
      EmitNothing(Abs());
      if c.counters.up < tomb.state.counters.up || c.counters.down < tomb.state.counters.down {
        EmitEvent(HealthOf(c.id, RegressionOnReobservation, at));
      }
      var draft := NewDraft(s, c, at, delta).(details := Reobserved);
      if delta.up > 0 || delta.down > 0 {
        draft := draft.(precision := IntervalOnly, interval := Some(Interval(tomb.state.last, at)));
      }
      ThenEmit(old(Abs()), head, draft);
      EmitEvent(draft);
    }

    /** The same connection reappearing after a snapshot flap. */
    method ProcessReobserved(c: Snapshot, tomb: Tomb, at: Time, delta: Bytes, confirmed: bool) returns (unique: Bytes)
      requires delta == Clamped(CounterDelta(c, tomb.state.counters))
      modifies this, tombs
      ensures var d := Reobserve(tomb, c, at, confirmed);
              Abs() == Emit(old(Abs()), d.drafts).(active := old(activeMap)[c.id := d.state],
                                                   tombs := Take(old(tombs.Abs()), c.id))
              && unique == d.unique
    {
      hide Emit, ClassifyRoute, InitialAttr, ReobservedDrafts, Clamped;
      ghost var start := Abs();
      var s := ReobservedState(tomb, c, at, delta, InitialAttr(c, confirmed));
      unique := if s.attr == ConfirmedRelayDuplicate then NO_BYTES else delta;
      EmitReobservation(s, tomb, c, at, delta);
      EmitKeepsRest(start, ReobservedDrafts(tomb, s, c, at, delta));
      activeMap := activeMap[c.id := s];
      var _ := tombs.TakeDisappeared(c.id);
    }

    /** A connection without usable history; any tombstone of its ID is consumed. */
    method ProcessNew(c: Snapshot, at: Time, confirmed: bool) returns (unique: Bytes)
      modifies this, tombs
      ensures var d := ObserveNew(c, at, confirmed);
              Abs() == Emit(old(Abs()), d.drafts).(active := old(activeMap)[c.id := d.state],
                                                   tombs := Take(old(tombs.Abs()), c.id))
              && unique == d.unique
    {
      hide Emit, ClassifyRoute, InitialAttr, NewDraft, Take;
      ghost var start := Abs();
      var _ := tombs.TakeDisappeared(c.id);
      var attr := InitialAttr(c, confirmed);
      var s := Active(c, at, at, c.counters, c.counters, NO_BYTES, at, false, ClassifyRoute(c.meta.chains), attr);
      activeMap := activeMap[c.id := s];
      unique := if attr == ConfirmedRelayDuplicate then NO_BYTES else c.counters;
      var draft := NewDraft(s, c, at, c.counters);
      assert Abs() == start.(active := activeMap, tombs := tombs.Abs());
      EmitCommutes(start, [draft], activeMap, tombs.Abs());
      EmitEvent(draft);
    }

    // -------------------------------------------------------------------------------------------
    // Steady frames
    // -------------------------------------------------------------------------------------------

    /** One connection's counter delta, and whether it is a re-observation. */
    method DeltaSince(c: Snapshot) returns (delta: Bytes, reobserved: bool)
      ensures delta == FrameDelta(Abs(), c) && (reobserved <==> IsReobservation(Abs(), c))
    {
      if c.id in activeMap {
        return Clamped(CounterDelta(c, activeMap[c.id].counters)), false;
      }
      if c.id in tombs.stones && c.start == tombs.stones[c.id].value.state.snap.start {
        return Clamped(CounterDelta(c, tombs.stones[c.id].value.state.counters)), true;
      }
      return c.counters, false;
    }

    /** The first loop: counter deltas, and which connections are re-observations. */
    method CollectDeltas(conns: seq<Snapshot>) returns (deltas: Deltas, reobserved: map<ConnId, Tomb>)
      requires DistinctIds(conns)
      ensures deltas == FrameDeltas(Abs(), conns) && ReobservedAmong(Abs(), conns, reobserved)
    {
      hide FrameDelta, ReobservedAmong, IsReobservation, DistinctIds;
      deltas, reobserved := map[], map[];
      NoneReobserved(Abs());
      for i := 0 to |conns|
        invariant deltas == FrameDeltas(Abs(), conns[..i]) && ReobservedAmong(Abs(), conns[..i], reobserved)
      {
        var c := conns[i];
        assert conns[..i + 1][..i] == conns[..i];
        var delta, again := DeltaSince(c);
        ReobservedStep(Abs(), conns, i, reobserved);
        deltas := deltas[c.id := delta];
        if again {
          reobserved := reobserved[c.id := tombs.stones[c.id].value];
        }
      }
      assert conns[..|conns|] == conns;
    }

    /** The second loop's body, for one connection. */
    method ProcessSteadyConn(c: Snapshot, at: Time, delta: Bytes, reobserved: map<ConnId, Tomb>, confirmed: set<ConnId>)
      returns (unique: Bytes)
      requires delta == FrameDelta(Abs(), c) && (c.id in reobserved <==> IsReobservation(Abs(), c))
      requires c.id in reobserved ==> reobserved[c.id] == tombs.stones[c.id].value
      modifies this, tombs
      ensures Abs() == ConnStep(old(Abs()), c, at, Steady(confirmed))
      ensures unique == Decide(old(Abs()), c, at, Steady(confirmed)).unique
    {
      hide ObserveSteady, Reobserve, ObserveNew, Clamped, Emit, Take;
      if c.id in activeMap {
        unique := ProcessLive(c, at, delta, c.id in confirmed);
      } else if c.id in reobserved {
        unique := ProcessReobserved(c, reobserved[c.id], at, delta, c.id in confirmed);
      } else {
        unique := ProcessNew(c, at, c.id in confirmed);
      }
    }

    method ProcessSteadyConns(conns: seq<Snapshot>, at: Time) returns (unique: Bytes)
      requires DistinctIds(conns)
      modifies this, tombs
      ensures Abs() == ConnSteps(old(Abs()), conns, at, Steady(ConfirmedIn(old(Abs()), conns)))
      ensures unique == UniqueObserved(old(Abs()), conns, at, Steady(ConfirmedIn(old(Abs()), conns)))
    {
      hide ConfirmedIds, FrameDelta, FrameDeltas, ConnStep, Decide;
      ghost var start := Abs();
      var deltas, reobserved := CollectDeltas(conns);
      var confirmed := PerformFrameRelayDeduplication(conns, deltas);
      ghost var mode := Steady(confirmed);
      unique := NO_BYTES;
      for i := 0 to |conns|
        invariant Abs() == ConnSteps(start, conns[..i], at, mode)
        invariant unique == UniqueObserved(start, conns[..i], at, mode)
      {
        var c := conns[i];
        assert conns[..i + 1][..i] == conns[..i] && c in conns;
        FrameDeltasAt(start, conns, c);
        SameAsFrameStart(start, conns, i, at, mode);
        var one := ProcessSteadyConn(c, at, deltas[c.id], reobserved, confirmed);
        unique := Bytes(unique.up + one.up, unique.down + one.down);
      }
      assert conns[..|conns|] == conns;
    }

    // -------------------------------------------------------------------------------------------
    // Bootstrap and recovery
    // -------------------------------------------------------------------------------------------

    method BootstrapConns(conns: seq<Snapshot>, at: Time)
      modifies this
      ensures Abs() == ConnSteps(old(Abs()), conns, at, Booting)
    {
      hide ObserveBootstrap, Emit;
      for i := 0 to |conns|
        invariant Abs() == ConnSteps(old(Abs()), conns[..i], at, Booting)
      {
        ghost var s := Abs();
        var d := ObserveBootstrap(conns[i], at);
        assert conns[..i + 1][..i] == conns[..i];
        EmitDrafts(d.drafts);
        EmitKeepsRest(s, d.drafts);
        activeMap := activeMap[conns[i].id := d.state];
        assert Abs() == ConnStep(s, conns[i], at, Booting);
      }
      assert conns[..|conns|] == conns;
    }

    method RecoverConns(conns: seq<Snapshot>, at: Time, gapFrom: Time)
      modifies this
      ensures Abs() == ConnSteps(old(Abs()), conns, at, Recovering(gapFrom))
    {
      hide Emit;
      for i := 0 to |conns|
        invariant Abs() == ConnSteps(old(Abs()), conns[..i], at, Recovering(gapFrom))
      {
        assert conns[..i + 1][..i] == conns[..i];
        RecoverConn(conns[i], at, gapFrom);
      }
      assert conns[..|conns|] == conns;
    }

    /** A connection present after a gap: known ones move on, unknown ones get a baseline. */
    method RecoverConn(c: Snapshot, at: Time, gapFrom: Time)
      modifies this
      ensures Abs() == ConnStep(old(Abs()), c, at, Recovering(gapFrom))
    {
      hide Emit, ClassifyRoute, ClassifyInitialAttribution, DeltaOrPresence, HealthOf, DeltaOf;
      ghost var start := Abs();
      if c.id in activeMap {
        var prev := activeMap[c.id];
        var deltaUp, deltaDown := c.counters.up - prev.counters.up, c.counters.down - prev.counters.down;
        ghost var head := if Regressed(c, prev.counters) then [HealthOf(c.id, RegressionAcrossGap, at)] else [];
        EmitNothing(start);
        if deltaUp < 0 || deltaDown < 0 {
          EmitEvent(HealthOf(c.id, RegressionAcrossGap, at));
          deltaUp, deltaDown := 0, 0;
          prev := prev.(evidence := at);
        }
        var delta := Bytes(deltaUp, deltaDown);
        var s := prev.(counters := c.counters, last := at,
                       monitored := Bytes(prev.monitored.up + deltaUp, prev.monitored.down + deltaDown));
        var draft := DeltaOf(s, c, at, delta).(precision := IntervalOnly, interval := Some(Interval(gapFrom, at)));
        ghost var tail := DeltaOrPresence(s, c, at, draft).0;
        s := EmitDeltaOrPresence(s, c, at, draft);
        EmitTwice(start, head, tail);
        EmitKeepsRest(start, head + tail);
        activeMap := activeMap[c.id := s];
      } else {
        var d := ObserveAfterGap(c, at);
        EmitDrafts(d.drafts);
        EmitKeepsRest(start, d.drafts);
        activeMap := activeMap[c.id := d.state];
      }
    }

    method EmitDrafts(ds: seq<Draft>)
      modifies this
      ensures Abs() == Emit(old(Abs()), ds)
    {
      hide Emit;
      EmitNothing(Abs());
      for i := 0 to |ds|
        invariant Abs() == Emit(old(Abs()), ds[..i])
      {
        ThenEmit(old(Abs()), ds[..i], ds[i]);
        assert ds[..i + 1] == ds[..i] + [ds[i]];
        EmitEvent(ds[i]);
      }
      assert ds[..|ds|] == ds;
    }

    // -------------------------------------------------------------------------------------------
    // Disappearance
    // -------------------------------------------------------------------------------------------

    method CloseOneConn(id: ConnId, at: Time)
      modifies this, tombs
      ensures Abs() == CloseOne(old(Abs()), id, at)
    {
      hide Emit, Bury;
      ghost var start := Abs();
      if id in activeMap {
        var prev := activeMap[id];
        EmitEvent(DisappearedDraft(id, prev, at));
        EmitKeepsRest(start, [DisappearedDraft(id, prev, at)]);
        tombs.RecordDisappeared(id, Tomb(prev, at));
        activeMap := activeMap - {id};
      }
    }

    method CloseMissingConns(conns: seq<Snapshot>, at: Time)
      modifies this, tombs
      ensures Abs() == CloseMissing(old(Abs()), conns, at)
    {
      hide CloseOne, Ascending;
      var disappeared := SortIds(activeMap.Keys - IdsOf(conns));
      for i := 0 to |disappeared|
        invariant Abs() == CloseAll(old(Abs()), disappeared[..i], at)
      {
        assert disappeared[..i + 1][..i] == disappeared[..i];
        CloseOneConn(disappeared[i], at);
      }
      assert disappeared[..|disappeared|] == disappeared;
    }

    // -------------------------------------------------------------------------------------------
    // Frames and items
    // -------------------------------------------------------------------------------------------

    /** A fresh connection map from the frame's connections. */
    method RebuildConnections(f: Frame)
      modifies this, tombs
      ensures Abs() == ConnSteps(old(Abs()).(active := map[], tombs := Clear(old(tombs.Abs()))), f.conns, f.at, Booting)
                         .(total := f.total, lastHealthy := f.at)
    {
      hide ConnSteps, Clear;
      activeMap := map[];
      tombs.Reset();
      BootstrapConns(f.conns, f.at);
      prevTotal := f.total;
      lastHealthyAt := f.at;
    }

    method ProcessBootstrapFrame(f: Frame)
      modifies this, tombs
      ensures Abs() == BootFrame(old(Abs()), f)
    {
      hide ConnSteps, UnobservedGap, Emit, ResidualDraft, Clear;
      RebuildConnections(f);
      if !hasEverBeenHealthy {
        EmitUnobservedIntervalGap(createdAt, f.at);
      }
      hasEverBeenHealthy := true;
      isBootstrapFrame := false;
      EmitEvent(ResidualDraft(BootstrapFrame, NO_BYTES, NO_BYTES, NO_BYTES, f.at));
    }

    method ProcessRecoveryFrame(f: Frame)
      modifies this, tombs
      ensures Abs() == RecoverFrame(old(Abs()), f)
    {
      hide ConnSteps, CloseMissing, Emit, ResidualDraft, GapClosedDraft;
      ghost var start := Abs();
      var global := Since(f, prevTotal);
      var from := gapStart;
      EmitEvent(GapClosedDraft(from, f.at, GapDelta(global)));
      RecoverConns(f.conns, f.at, from);
      CloseMissingConns(f.conns, f.at);
      prevTotal := f.total;
      lastHealthyAt := f.at;
      gapIsOpen := false;
      EmitEvent(ResidualDraft(RecoveryFrame, global, NO_BYTES, NO_BYTES, f.at));
    }

    method ProcessSteadyFrame(f: Frame)
      requires DistinctIds(f.conns)
      modifies this, tombs
      ensures Abs() == ObserveFrame(old(Abs()), f)
    {
      hide ConnSteps, CloseMissing, Emit, ResidualDraft, UniqueObserved, ConfirmedIn;
      ghost var start := Abs();
      var unique := ProcessSteadyConns(f.conns, f.at);
      ConnStepsKeepScalars(start, f.conns, f.at, Steady(ConfirmedIn(start, f.conns)));
      ghost var seen := Abs();
      CloseMissingConns(f.conns, f.at);
      CloseMissingKeepsScalars(seen, f.conns, f.at);
      var global := Since(f, prevTotal);
      var residual := Bytes(global.up - unique.up, global.down - unique.down);
      EmitEvent(ResidualDraft(SteadyFrame, global, unique, residual, f.at));
      prevTotal := f.total;
      lastHealthyAt := f.at;
    }

    /** The controller restarted while a gap was open: the gap ends without a byte difference. */
    method BreakInsideGap(f: Frame)
      modifies this, tombs
      ensures var drafts := [GapClosedDraft(old(gapStart), f.at, GapDeltaUnavailable), Plain(CounterEpochBreak, f.at)];
              Abs() == BootFrame(BreakEpoch(Emit(old(Abs()), drafts)).(gapOpen := false), f)
    {
      hide BootFrame, GapClosedDraft, Plain, Emit, BreakEpoch;
      ghost var start := Abs();
      ghost var closed := GapClosedDraft(gapStart, f.at, GapDeltaUnavailable);
      EmitEvent(GapClosedDraft(gapStart, f.at, GapDeltaUnavailable));
      EmitEvent(Plain(CounterEpochBreak, f.at));
      ThenEmit(start, [closed], Plain(CounterEpochBreak, f.at));
      assert [closed] + [Plain(CounterEpochBreak, f.at)] == [closed, Plain(CounterEpochBreak, f.at)];
      BreakCounterEpoch();
      gapIsOpen := false;
      ProcessBootstrapFrame(f);
    }

    method BreakInSteadyState(f: Frame)
      modifies this, tombs
      ensures Abs() == BootFrame(BreakEpoch(Emit(old(Abs()), [Plain(CounterEpochBreak, f.at)])), f)
    {
      hide BootFrame, Plain, Emit, BreakEpoch;
      EmitEvent(Plain(CounterEpochBreak, f.at));
      BreakCounterEpoch();
      ProcessBootstrapFrame(f);
    }

    method ProcessFrameInternal(f: Frame)
      requires DistinctIds(f.conns)
      modifies this, tombs
      ensures Abs() == ProcessFrame(old(Abs()), f)
    {
      hide BootFrame, RecoverFrame, ObserveFrame, GapClosedDraft, Plain, Emit, BreakEpoch;
      frameSequence := frameSequence + 1;
      eventSequence := 0;
      assert Abs() == BeginFrame(old(Abs()));
      var regress := f.total.up < prevTotal.up || f.total.down < prevTotal.down;
      if gapIsOpen {
        if regress {
          BreakInsideGap(f);
        } else {
          ProcessRecoveryFrame(f);
        }
        return;
      }
      if !isBootstrapFrame && regress {
        BreakInSteadyState(f);
        return;
      }
      if isBootstrapFrame {
        ProcessBootstrapFrame(f);
        return;
      }
      ProcessSteadyFrame(f);
    }

    method BreakCounterEpoch()
      modifies this, tombs
      ensures Abs() == BreakEpoch(old(Abs()))
    {
      epochID := epochID + 1;
      activeMap := map[];
      tombs.Reset();
      isBootstrapFrame := true;
    }

    /** ProcessIngestItem, and the shutdown hook EmitUnobservedSessionGap. */
    method ProcessIngestItem(item: Item)
      requires SaneItem(item)
      modifies this, tombs
      ensures Abs() == Process(old(Abs()), item)
      ensures EngineOk(old(Abs())) ==> EngineOk(Abs())
    {
      hide ProcessFrame, GapOpenedDraft, EngineOk, UnobservedGap, Plain, Emit;
      if EngineOk(Abs()) {
        ProcessKeepsOk(Abs(), item);
      }
      match item
      case FrameItem(f) =>
        ProcessFrameInternal(f);
      case GapItem(at, reason) =>
        if hasEverBeenHealthy && !gapIsOpen {
          gapIsOpen := true;
          gapStart := lastHealthyAt;
          if gapStart == ZERO_TIME {
            gapStart := at;
          }
          EmitEvent(GapOpenedDraft(gapStart, at, reason));
        }
      case HealthItem(at, issue) =>
        EmitEvent(Plain(CollectorHealth, at).(details := HealthIssue(ReportedIssue(issue))));
      case ShutdownItem(at) =>
        if !hasEverBeenHealthy {
          EmitUnobservedIntervalGap(createdAt, at);
        }
    }
  }

  lemma EmitKeepsRest(e: Engine, ds: seq<Draft>)
    ensures Emit(e, ds).active == e.active && Emit(e, ds).tombs == e.tombs
  {
  }

  lemma EmitCommutes(e: Engine, ds: seq<Draft>, active: map<ConnId, Active>, tombs: Graveyard<Tomb>)
    ensures Emit(e.(active := active, tombs := tombs), ds) == Emit(e, ds).(active := active, tombs := tombs)
  {
  }

  lemma CloseMissingKeepsScalars(e: Engine, conns: seq<Snapshot>, at: Time)
    ensures SameScalars(e, CloseMissing(e, conns, at))
  {
    hide Ascending, CloseAll;
    CloseAllKeepsScalars(e, Ascending(e.active.Keys - IdsOf(conns)), at);
  }

  lemma SameAsFrameStart(e: Engine, conns: seq<Snapshot>, i: nat, at: Time, mode: Mode)
    requires DistinctIds(conns) && i < |conns|
    ensures var s := ConnSteps(e, conns[..i], at, mode);
            && FrameDelta(s, conns[i]) == FrameDelta(e, conns[i])
            && (IsReobservation(s, conns[i]) <==> IsReobservation(e, conns[i]))
            && (IsReobservation(e, conns[i]) ==> s.tombs.stones[conns[i].id] == e.tombs.stones[conns[i].id])
  {
    hide ConnSteps, Clamped;
    assert forall x :: x in conns[..i] ==> x.id != conns[i].id;
    OthersLeaveAlone(e, conns[..i], at, mode, conns[i]);
  }

  method SortIds(ids: set<ConnId>) returns (list: seq<ConnId>)
    ensures list == Ascending(ids)
  {
    list := [];
    var todo := ids;
    while todo != {}
      invariant todo <= ids && list + Ascending(todo) == Ascending(ids)
      decreases |todo|
    {
      MinExists(todo);
      var m :| m in todo && IsLeast(todo, m);
      assert Ascending(todo) == [m] + Ascending(todo - {m});
      assert list + ([m] + Ascending(todo - {m})) == (list + [m]) + Ascending(todo - {m});
      list := list + [m];
      todo := todo - {m};
    }
  }
}
