/** What the dashboard shows is what the engine knows: the projected row of a live connection carries the metadata,
    route, attribution, total and baseline of the engine's own state. */
module RowMirrors {
  import opened Types
  import opened Attribution
  import opened EventLog
  import opened Decisions
  import opened Tombstones
  import opened Engine
  import opened EngineSafety
  import opened EngineRuns
  import opened Projector
  import opened ProjectionLaws
  import Pipeline

  /** The latest introduction of the key is a Bootstrap of a key that was there before: it leaves the row alone. */
  function Rebooted(evs: seq<Event>, k: RowKey): bool {
    if evs == [] then false
    else
      var front, ev := evs[..|evs| - 1], evs[|evs| - 1];
      if KeyFor(ev) != k then Rebooted(front, k)
      else if ev.body.typ.ConnectionNew? then false
      else if ev.body.typ.ConnectionBootstrap? then FirstSeen(front, k).Some?
      else Rebooted(front, k)
  }

  /** What the events say about a key's row, as far as the engine knows it too. */
  datatype View = View(seen: bool, rebooted: bool, description: Description, attr: Attr, monitored: Bytes,
                       baseline: Bytes, open: bool)

  function ViewOf(evs: seq<Event>, k: RowKey): View {
    View(FirstSeen(evs, k).Some?, Rebooted(evs, k), LatestDescription(evs, k), LatestClass(evs, k),
         LatestMonitored(evs, k), LatestOrigin(evs, k).baseline, UnderObservation(evs, k))
  }

  /** One more event about the key. */
  function ViewStep(v: View, d: Draft): View {
    match d.typ
    case ConnectionNew => View(true, false, Description(d.meta, d.route), d.attr, d.monitored, d.baseline, true)
    case ConnectionBootstrap =>
      if v.seen then v.(rebooted := true)
      else View(true, false, Description(d.meta, d.route), d.attr, v.monitored, d.baseline, true)
    case ConnectionDelta => v.(monitored := d.monitored)
    case MetadataUpdated => v.(description := Description(d.meta, d.route))
    case RelayClassificationChanged => v.(attr := d.attr)
    case ConnectionDisappeared => v.(open := false)
    case _ => v
  }

  function ViewFrom(v: View, ds: seq<Draft>): View {
    if ds == [] then v else ViewStep(ViewFrom(v, ds[..|ds| - 1]), ds[|ds| - 1])
  }

  lemma ViewAfterOwn(evs: seq<Event>, ev: Event)
    requires !ev.body.typ.CounterEpochBreak?
    ensures ViewOf(evs + [ev], KeyFor(ev)) == ViewStep(ViewOf(evs, KeyFor(ev)), ev.body)
  {
    hide FirstSeen, UnderObservation;
    var k := KeyFor(ev);
    FoldsAfterEvent(evs, ev, k);
    assert (evs + [ev])[..|evs + [ev]| - 1] == evs;
  }

  lemma ViewAfterOther(evs: seq<Event>, ev: Event, k: RowKey)
    requires KeyFor(ev) != k && !ev.body.typ.CounterEpochBreak?
    ensures ViewOf(evs + [ev], k) == ViewOf(evs, k)
  {
    hide FirstSeen, UnderObservation;
    FoldsAfterEvent(evs, ev, k);
    assert (evs + [ev])[..|evs + [ev]| - 1] == evs;
  }

  function RowOf(e: Engine, id: ConnId): RowKey {
    (e.epoch, Some(id))
  }

  lemma EmitOneMore(e: Engine, front: seq<Draft>, d: Draft) returns (ev: Event)
    ensures Emit(e, front + [d]).log == Emit(e, front).log + [ev]
    ensures ev.body == d && ev.pos.epoch == e.epoch
  {
    EmitTwice(e, front, [d]);
    ev := Event(Pos(e.session, e.epoch, e.frame, e.seqno + |front| + 1), d);
    assert Emit(Emit(e, front), [d]).log == Emit(e, front).log + [ev];
  }

  /** Appending the events of one decision moves its own view and no other. */
  lemma {:induction false} EmitMovesView(e: Engine, ds: seq<Draft>, id: ConnId, k: RowKey)
    requires Only(ds, id)
    ensures ViewOf(Emit(e, ds).log, k)
            == if k == RowOf(e, id) then ViewFrom(ViewOf(e.log, k), ds) else ViewOf(e.log, k)
  {
    hide ViewOf, ViewStep, Emit;
    if ds == [] {
      EmitNothing(e);
    } else {
      var front, d := ds[..|ds| - 1], ds[|ds| - 1];
      assert front + [d] == ds;
      EmitMovesView(e, front, id, k);
      var ev := EmitOneMore(e, front, d);
      if k == RowOf(e, id) {
        ViewAfterOwn(Emit(e, front).log, ev);
      } else {
        ViewAfterOther(Emit(e, front).log, ev, k);
      }
    }
  }

  lemma EmitNothing(e: Engine)
    ensures Emit(e, []).log == e.log
  {
  }

  /** The row shows the state, unless its latest introduction left it alone. */
  predicate Shows(v: View, s: Active) {
    && v.seen
    && (!v.rebooted ==>
          && v.description == Description(s.snap.meta, s.route) && v.attr == s.attr && v.monitored == s.monitored
          && v.baseline == s.baseline && v.open)
    && (v.rebooted ==> !v.open)
  }

  /** A key without a row has no total. */
  predicate Fresh(v: View) {
    !v.seen ==> v.monitored == NO_BYTES
  }

  /** A row that is there is ended. */
  predicate Closed(v: View) {
    v.seen ==> !v.open
  }

  // ---------------------------------------------------------------------------------------------
  // Decisions keep the row showing the state
  // ---------------------------------------------------------------------------------------------

  lemma {:induction false} ViewFromConcat(v: View, a: seq<Draft>, b: seq<Draft>)
    ensures ViewFrom(v, a + b) == ViewFrom(ViewFrom(v, a), b)
  {
    if b == [] {
      assert a + b == a;
    } else {
      ViewFromConcat(v, a, b[..|b| - 1]);
      assert (a + b)[..|a + b| - 1] == a + b[..|b| - 1];
    }
  }

  lemma ViewFromOne(v: View, d: Draft)
    ensures ViewFrom(v, []) == v && ViewFrom(v, [d]) == ViewStep(v, d)
  {
    assert [d][..|[d]| - 1] == [];
  }

  lemma MetaShows(v: View, prev: Active, c: Snapshot, at: Time)
    requires Shows(v, prev)
    ensures Shows(ViewFrom(v, EvolveMeta(prev, c, at).0), EvolveMeta(prev, c, at).1)
  {
    hide ClassifyRoute, ViewFrom, ViewStep, MetadataDraft, HealthOf;
    var rerouted := prev.snap.meta.chains != c.meta.chains;
    var route := if rerouted then ClassifyRoute(c.meta.chains) else prev.route;
    var h, m := HealthOf(c.id, RoutingChainMutation, at), MetadataDraft(c, route, at);
    UpdateShows(v, prev, c, route, at);
    ViewFromOne(v, h);
    ViewFromOne(v, m);
    ViewFromConcat(v, [h], [m]);
    assert [] + [m] == [m];
  }

  lemma UpdateShows(v: View, prev: Active, c: Snapshot, route: Route, at: Time)
    requires Shows(v, prev)
    ensures ViewStep(v, HealthOf(c.id, RoutingChainMutation, at)) == v
    ensures Shows(ViewStep(v, MetadataDraft(c, route, at)), prev.(snap := c, route := route, evidence := at))
  {
  }

  lemma ClassShows(v: View, s: Active, c: Snapshot, at: Time, confirmed: bool)
    requires Shows(v, s)
    ensures Shows(ViewFrom(v, EvolveClass(s, c, at, confirmed).0), EvolveClass(s, c, at, confirmed).1)
  {
    ViewFromOne(v, Plain(RelayClassificationChanged, at).(conn := Some(c.id), attr := ConfirmedRelayDuplicate));
  }

  lemma TailShows(v: View, s: Active, c: Snapshot, at: Time, prev: Active, delta: Bytes, draft: Draft)
    requires Shows(v, prev) && s.snap.meta == prev.snap.meta && s.route == prev.route && s.attr == prev.attr
    requires s.baseline == prev.baseline && s.monitored == Bytes(prev.monitored.up + delta.up,
                                                                 prev.monitored.down + delta.down)
    requires draft.typ.ConnectionDelta? && draft.delta == delta && draft.monitored == s.monitored
    requires delta.up >= 0 && delta.down >= 0
    ensures Shows(ViewFrom(v, DeltaOrPresence(s, c, at, draft).0), DeltaOrPresence(s, c, at, draft).1)
  {
    ViewFromOne(v, draft);
    ViewFromOne(v, PresenceOf(c, at));
  }

  lemma SteadyShows(v: View, prev: Active, c: Snapshot, at: Time, confirmed: bool)
    requires Shows(v, prev)
    ensures var d := ObserveSteady(prev, c, at, confirmed); Shows(ViewFrom(v, d.drafts), d.state)
  {
    hide EvolveMeta, EvolveClass, DeltaOrPresence, ClassifyRoute;
    MetaShows(v, prev, c, at);
    MetaKeepsTotals(prev, c, at);
    var (meta, s) := EvolveMeta(prev, c, at);
    var v1 := ViewFrom(v, meta);
    if Regressed(c, prev.counters) {
      var h := HealthOf(c.id, CounterRegression, at);
      ViewFromConcat(v, meta, [h]);
      ViewFromOne(v1, h);
    } else {
      var (class_, s1) := EvolveClass(s, c, at, confirmed);
      ClassShows(v1, s, c, at, confirmed);
      var delta := Clamped(CounterDelta(c, prev.counters));
      var s2 := Observe(s1, c, at, delta);
      TailShows(ViewFrom(v1, class_), s2, c, at, s1, delta, DeltaOf(s2, c, at, delta));
      var tail := DeltaOrPresence(s2, c, at, DeltaOf(s2, c, at, delta)).0;
      ViewFromConcat(v, meta, class_);
      ViewFromConcat(v, meta + class_, tail);
    }
  }

  lemma MetaKeepsTotals(prev: Active, c: Snapshot, at: Time)
    ensures EvolveMeta(prev, c, at).1.counters == prev.counters
  {
    hide ClassifyRoute;
  }

  lemma AcrossGapShows(v: View, prev: Active, c: Snapshot, at: Time, gapStart: Time)
    requires Shows(v, prev)
    ensures var d := ObserveAcrossGap(prev, c, at, gapStart); Shows(ViewFrom(v, d.drafts), d.state)
  {
    hide DeltaOrPresence;
    var regressed := Regressed(c, prev.counters);
    var delta := if regressed then NO_BYTES else CounterDelta(c, prev.counters);
    var s := Observe(prev.(evidence := if regressed then at else prev.evidence), c, at, delta);
    var draft := DeltaOf(s, c, at, delta).(precision := IntervalOnly, interval := Some(Interval(gapStart, at)));
    var h := if regressed then [HealthOf(c.id, RegressionAcrossGap, at)] else [];
    ViewFromOne(v, HealthOf(c.id, RegressionAcrossGap, at));
    TailShows(ViewFrom(v, h), s, c, at, prev, delta, draft);
    ViewFromConcat(v, h, DeltaOrPresence(s, c, at, draft).0);
  }

  lemma NewShows(v: View, c: Snapshot, at: Time, confirmed: bool)
    ensures var d := ObserveNew(c, at, confirmed); Shows(ViewFrom(v, d.drafts), d.state)
  {
    hide ClassifyRoute, InitialAttr;
    ViewFromOne(v, ObserveNew(c, at, confirmed).drafts[0]);
  }

  lemma ReobservedShows(v: View, t: Tomb, c: Snapshot, at: Time, confirmed: bool)
    ensures var d := Reobserve(t, c, at, confirmed); Shows(ViewFrom(v, d.drafts), d.state)
  {
    hide ClassifyRoute, InitialAttr;
    var delta := Clamped(CounterDelta(c, t.state.counters));
    var s := ReobservedState(t, c, at, delta, InitialAttr(c, confirmed));
    var h, d := HealthOf(c.id, RegressionOnReobservation, at), ReobservedDraft(t, s, c, at, delta);
    ViewFromOne(v, h);
    ViewFromOne(v, d);
    ViewFromOne(ViewFrom(v, [h]), d);
    ViewFromConcat(v, [h], [d]);
    assert [] + [d] == [d];
  }

  lemma BaselineShows(v: View, c: Snapshot, at: Time)
    requires Fresh(v) && Closed(v)
    ensures Shows(ViewFrom(v, ObserveBootstrap(c, at).drafts), ObserveBootstrap(c, at).state)
    ensures Shows(ViewFrom(v, ObserveAfterGap(c, at).drafts), ObserveAfterGap(c, at).state)
  {
    hide ClassifyRoute, ClassifyInitialAttribution;
    ViewFromOne(v, ObserveBootstrap(c, at).drafts[0]);
    ViewFromOne(v, ObserveAfterGap(c, at).drafts[0]);
  }

  lemma DecisionShows(e: Engine, v: View, c: Snapshot, at: Time, mode: Mode)
    requires if c.id in e.active then Shows(v, e.active[c.id]) else Fresh(v) && Closed(v)
    requires mode.Booting? ==> c.id !in e.active
    ensures Shows(ViewFrom(v, Decide(e, c, at, mode).drafts), Decide(e, c, at, mode).state)
  {
    hide ObserveSteady, Reobserve, ObserveNew, ObserveBootstrap, ObserveAcrossGap, ObserveAfterGap, Shows, ViewFrom;
    match mode
    case Booting => BaselineShows(v, c, at);
    case Recovering(gapStart) =>
      if c.id in e.active {
        AcrossGapShows(v, e.active[c.id], c, at, gapStart);
      } else {
        BaselineShows(v, c, at);
      }
    case Steady(confirmed) =>
      if c.id in e.active {
        SteadyShows(v, e.active[c.id], c, at, c.id in confirmed);
      } else if IsReobservation(e, c) {
        ReobservedShows(v, e.tombs.stones[c.id].value, c, at, c.id in confirmed);
      } else {
        NewShows(v, c, at, c.id in confirmed);
      }
  }

  // ---------------------------------------------------------------------------------------------
  // Every run
  // ---------------------------------------------------------------------------------------------

  ghost predicate AllFresh(log: seq<Event>) {
    forall k: RowKey :: Fresh(ViewOf(log, k))
  }

  /** No row belongs to a later counter epoch. */
  ghost predicate NoneAhead(e: Engine) {
    forall k: RowKey :: k.0 > e.epoch ==> !ViewOf(e.log, k).seen
  }

  /** Every live connection's row shows its state, and every other row of the counter epoch is ended. */
  ghost predicate RowsShow(e: Engine) {
    && AllFresh(e.log) && NoneAhead(e)
    && (forall id :: id in e.active ==> Shows(ViewOf(e.log, RowOf(e, id)), e.active[id]))
    && (forall id :: id !in e.active ==> Closed(ViewOf(e.log, RowOf(e, id))))
  }

  lemma ConnStepShows(e: Engine, c: Snapshot, at: Time, mode: Mode)
    requires RowsShow(e) && Inner(e) && SaneSnapshot(c) && (mode.Booting? ==> c.id !in e.active)
    ensures RowsShow(ConnStep(e, c, at, mode))
  {
    hide Inner, Decide, ViewOf, Shows, Emit, Fresh, Closed;
    var d := Decide(e, c, at, mode);
    SoundDecision(e, c, at, mode);
    DecisionShows(e, ViewOf(e.log, RowOf(e, c.id)), c, at, mode);
    ShownIsSeen(ViewFrom(ViewOf(e.log, RowOf(e, c.id)), d.drafts), d.state);
    StepTouchesOne(e, c, at, mode);
    var e' := ConnStep(e, c, at, mode);
    assert e'.log == Emit(e, d.drafts).log && e'.epoch == e.epoch by { StepLog(e, c, at, mode); }
    forall k: RowKey
      ensures ViewOf(e'.log, k)
              == if k == RowOf(e, c.id) then ViewFrom(ViewOf(e.log, k), d.drafts) else ViewOf(e.log, k)
    {
      EmitMovesView(e, d.drafts, c.id, k);
    }
  }

  lemma StepLog(e: Engine, c: Snapshot, at: Time, mode: Mode)
    ensures ConnStep(e, c, at, mode).log == Emit(e, Decide(e, c, at, mode).drafts).log
    ensures ConnStep(e, c, at, mode).epoch == e.epoch
  {
    hide Decide;
  }

  lemma ShownIsSeen(v: View, s: Active)
    requires Shows(v, s)
    ensures v.seen && Fresh(v)
  {
  }

  lemma {:induction false} ConnStepsShow(e: Engine, conns: seq<Snapshot>, at: Time, mode: Mode)
    requires RowsShow(e) && Inner(e) && DistinctIds(conns)
    requires forall c :: c in conns ==> SaneSnapshot(c) && (mode.Booting? ==> c.id !in e.active)
    ensures RowsShow(ConnSteps(e, conns, at, mode))
  {
    hide Inner, SaneSnapshot, RowsShow, ConnStep;
    if conns != [] {
      assert conns[|conns| - 1] in conns;
      ConnStepsShow(e, conns[..|conns| - 1], at, mode);
      ConnStepsKeepInner(e, conns[..|conns| - 1], at, mode);
      OthersLeaveAlone(e, conns[..|conns| - 1], at, mode, conns[|conns| - 1]);
      ConnStepShows(ConnSteps(e, conns[..|conns| - 1], at, mode), conns[|conns| - 1], at, mode);
    }
  }

  lemma CloseOneShows(e: Engine, id: ConnId, at: Time)
    requires RowsShow(e)
    ensures RowsShow(CloseOne(e, id, at))
  {
    hide Bury, ViewOf, Emit, DisappearedDraft;
    if id in e.active {
      var d := DisappearedDraft(id, e.active[id], at);
      assert Only([d], id) && d.typ.ConnectionDisappeared? by { GoneIsOnly(id, e.active[id], at); }
      CloseLog(e, id, at);
      forall k: RowKey
        ensures ViewOf(CloseOne(e, id, at).log, k)
                == if k == RowOf(e, id) then ViewStep(ViewOf(e.log, k), d) else ViewOf(e.log, k)
      {
        EmitMovesView(e, [d], id, k);
        ViewFromOne(ViewOf(e.log, k), d);
      }
    }
  }

  lemma GoneIsOnly(id: ConnId, s: Active, at: Time)
    ensures Only([DisappearedDraft(id, s, at)], id) && DisappearedDraft(id, s, at).typ.ConnectionDisappeared?
  {
  }

  lemma CloseLog(e: Engine, id: ConnId, at: Time)
    requires id in e.active
    ensures var e' := CloseOne(e, id, at);
            e'.log == Emit(e, [DisappearedDraft(id, e.active[id], at)]).log && e'.active == e.active - {id}
            && e'.epoch == e.epoch
  {
    hide Bury, DisappearedDraft;
  }

  lemma {:induction false} CloseAllShows(e: Engine, ids: seq<ConnId>, at: Time)
    requires RowsShow(e)
    ensures RowsShow(CloseAll(e, ids, at))
  {
    hide RowsShow, CloseOne;
    if ids != [] {
      CloseAllShows(e, ids[..|ids| - 1], at);
      CloseOneShows(CloseAll(e, ids[..|ids| - 1], at), ids[|ids| - 1], at);
    }
  }

  lemma ViewAfterGlobal(evs: seq<Event>, ev: Event, k: RowKey)
    requires Global(ev.body)
    ensures ViewOf(evs + [ev], k) == ViewOf(evs, k)
  {
    if k == KeyFor(ev) {
      ViewAfterOwn(evs, ev);
    } else {
      ViewAfterOther(evs, ev, k);
    }
  }

  /** The frame's own events move no view. */
  lemma GlobalShows(e: Engine, d: Draft)
    requires RowsShow(e) && Global(d)
    ensures RowsShow(Emit(e, [d]))
  {
    hide ViewOf, Shows, Emit, Global, Fresh, Closed;
    EmitNothing(e);
    var ev := EmitOneMore(e, [], d);
    assert [] + [d] == [d];
    forall k: RowKey ensures ViewOf(Emit(e, [d]).log, k) == ViewOf(e.log, k) {
      ViewAfterGlobal(e.log, ev, k);
    }
    EmitKeepsState(e, [d]);
  }

  lemma EmitKeepsState(e: Engine, ds: seq<Draft>)
    ensures Emit(e, ds).active == e.active && Emit(e, ds).epoch == e.epoch
  {
  }

  lemma ShowIgnoresFlags(a: Engine, b: Engine)
    requires a.active == b.active && a.log == b.log && a.epoch == b.epoch && RowsShow(a)
    ensures RowsShow(b)
  {
    hide ViewOf, Shows, Fresh, Closed;
  }

  lemma ViewAfterBreak(evs: seq<Event>, ev: Event, k: RowKey)
    requires ev.body.typ.CounterEpochBreak? && Fresh(ViewOf(evs, k))
    ensures Fresh(ViewOf(evs + [ev], k)) && (ViewOf(evs + [ev], k).seen <==> ViewOf(evs, k).seen)
  {
    hide FirstSeen, UnderObservation;
    FoldsAfterEvent(evs, ev, k);
  }

  /** After a break there is no live connection to show. */
  lemma BreakShows(e: Engine, at: Time)
    requires RowsShow(e)
    ensures RowsShow(BreakEpoch(Emit(e, [Plain(CounterEpochBreak, at)])))
  {
    hide ViewOf, Shows, Emit, Fresh;
    EmitNothing(e);
    var d := Plain(CounterEpochBreak, at);
    var ev := EmitOneMore(e, [], d);
    assert [] + [d] == [d];
    forall k: RowKey
      ensures Fresh(ViewOf(Emit(e, [d]).log, k)) && (ViewOf(Emit(e, [d]).log, k).seen <==> ViewOf(e.log, k).seen)
    {
      ViewAfterBreak(e.log, ev, k);
    }
    EmitKeepsState(e, [d]);
  }

  lemma UnobservedShows(e: Engine, end: Time)
    requires RowsShow(e)
    ensures RowsShow(UnobservedGap(e, e.created, end))
  {
    hide RowsShow, Plain, Emit;
    var first, second := GapOpenedDraft(e.created, end, UNREACHABLE),
        GapClosedDraft(e.created, end, GapReason(UNREACHABLE));
    GapDraftsAreGlobal(e.created, end);
    GlobalShows(e, first);
    GlobalShows(Emit(e, [first]), second);
    EmitTwice(e, [first], [second]);
    assert [first] + [second] == [first, second];
    if UnobservedGap(e, e.created, end) != e {
      ShowIgnoresFlags(Emit(e, [first, second]), Emit(e, [first, second]).(unobserved := true));
    }
  }

  lemma BootShows(e: Engine, f: Frame)
    requires RowsShow(e) && e.active == map[] && Inner(e) && SaneItem(FrameItem(f))
    ensures RowsShow(BootFrame(e, f))
  {
    hide Inner, RowsShow, ConnSteps, UnobservedGap, Clear, Emit, ResidualDraft, SaneSnapshot;
    var e0 := e.(active := map[], tombs := Clear(e.tombs));
    ShowIgnoresFlags(e, e0);
    EmptyStateIsInner(e);
    ConnStepsShow(e0, f.conns, f.at, Booting);
    var e1 := ConnSteps(e0, f.conns, f.at, Booting);
    var e2 := e1.(total := f.total, lastHealthy := f.at);
    ShowIgnoresFlags(e1, e2);
    UnobservedShows(e2, f.at);
    var e3 := if e2.healthy then e2 else UnobservedGap(e2, e2.created, f.at);
    var e4 := e3.(healthy := true, bootstrap := false);
    ShowIgnoresFlags(e3, e4);
    ResidualIsGlobal(BootstrapFrame, NO_BYTES, NO_BYTES, NO_BYTES, f.at);
    GlobalShows(e4, ResidualDraft(BootstrapFrame, NO_BYTES, NO_BYTES, NO_BYTES, f.at));
  }

  lemma LoopsShow(e: Engine, f: Frame, mode: Mode)
    requires RowsShow(e) && Inner(e) && SaneItem(FrameItem(f)) && !mode.Booting?
    ensures RowsShow(CloseMissing(ConnSteps(e, f.conns, f.at, mode), f.conns, f.at))
  {
    hide Inner, RowsShow, ConnSteps, CloseAll, SaneSnapshot, Ascending;
    ConnStepsShow(e, f.conns, f.at, mode);
    var s := ConnSteps(e, f.conns, f.at, mode);
    CloseAllShows(s, Ascending(s.active.Keys - IdsOf(f.conns)), f.at);
  }

  lemma RecoverShows(e: Engine, f: Frame)
    requires RowsShow(e) && Inner(e) && GapIs(e, true) && SaneItem(FrameItem(f))
    ensures RowsShow(RecoverFrame(e, f))
  {
    hide Inner, RowsShow, ConnSteps, CloseMissing, Emit, ResidualDraft, GapClosedDraft, SaneSnapshot, GapAfter, Bodies,
         Contribution, Contributions;
    var gain := Since(f, e.total);
    var g := GapClosedDraft(e.gapStart, f.at, GapDelta(gain));
    GapDraftsAreGlobal(e.gapStart, f.at);
    GlobalKeepsInner(e, g);
    GlobalShows(e, g);
    LoopsShow(Emit(e, [g]), f, Recovering(e.gapStart));
    var e1 := CloseMissing(ConnSteps(Emit(e, [g]), f.conns, f.at, Recovering(e.gapStart)), f.conns, f.at);
    var e2 := e1.(total := f.total, lastHealthy := f.at, gapOpen := false);
    ShowIgnoresFlags(e1, e2);
    ResidualIsGlobal(RecoveryFrame, gain, NO_BYTES, NO_BYTES, f.at);
    GlobalShows(e2, ResidualDraft(RecoveryFrame, gain, NO_BYTES, NO_BYTES, f.at));
  }

  lemma ObserveShows(e: Engine, f: Frame)
    requires RowsShow(e) && Inner(e) && SaneItem(FrameItem(f))
    ensures RowsShow(ObserveFrame(e, f))
  {
    hide Inner, RowsShow, ConnSteps, CloseMissing, Emit, ResidualDraft, SaneSnapshot, UniqueObserved, ConfirmedIn;
    var mode := Steady(ConfirmedIn(e, f.conns));
    LoopsShow(e, f, mode);
    var e1 := CloseMissing(ConnSteps(e, f.conns, f.at, mode), f.conns, f.at);
    var global, unique := Since(f, e.total), UniqueObserved(e, f.conns, f.at, mode);
    var d := ResidualDraft(SteadyFrame, global, unique, Bytes(global.up - unique.up, global.down - unique.down), f.at);
    ResidualIsGlobal(SteadyFrame, global, unique, Bytes(global.up - unique.up, global.down - unique.down), f.at);
    GlobalShows(e1, d);
    ShowIgnoresFlags(Emit(e1, [d]), Emit(e1, [d]).(total := f.total, lastHealthy := f.at));
  }

  lemma FrameShows(e: Engine, f: Frame)
    requires EngineOk(e) && RowsShow(e) && SaneItem(FrameItem(f)) && (e.bootstrap ==> e.active == map[])
    ensures RowsShow(ProcessFrame(e, f))
  {
    hide Inner, RowsShow, BootFrame, RecoverFrame, ObserveFrame, Emit, Plain, SaneSnapshot, GapAfter, Bodies,
         Contributions, GapClosedDraft, Contribution;
    var b := BeginFrame(e);
    InnerIgnoresFlags(e, b);
    ShowIgnoresFlags(e, b);
    if e.gapOpen {
      if TotalsRegress(e, f) {
        var closed, broken := GapClosedDraft(b.gapStart, f.at, GapDeltaUnavailable), Plain(CounterEpochBreak, f.at);
        GapDraftsAreGlobal(b.gapStart, f.at);
        GlobalKeepsInner(b, closed);
        GlobalShows(b, closed);
        BreakKeepsInner(Emit(b, [closed]), f.at);
        BreakShows(Emit(b, [closed]), f.at);
        EmitTwice(b, [closed], [broken]);
        assert [closed] + [broken] == [closed, broken];
        var b2 := BreakEpoch(Emit(b, [closed, broken]));
        InnerIgnoresFlags(b2, b2.(gapOpen := false));
        ShowIgnoresFlags(b2, b2.(gapOpen := false));
        BootShows(b2.(gapOpen := false), f);
      } else {
        RecoverShows(b, f);
      }
    } else if !e.bootstrap && TotalsRegress(e, f) {
      BreakKeepsInner(b, f.at);
      BreakShows(b, f.at);
      BootShows(BreakEpoch(Emit(b, [Plain(CounterEpochBreak, f.at)])), f);
    } else if e.bootstrap {
      BootShows(b, f);
    } else {
      ObserveShows(b, f);
    }
  }

  lemma ItemShows(e: Engine, item: Item)
    requires EngineOk(e) && RowsShow(e) && SaneItem(item) && (e.bootstrap ==> e.active == map[])
    ensures RowsShow(Process(e, item)) && (Process(e, item).bootstrap ==> Process(e, item).active == map[])
  {
    ProcessKeepsOk(e, item);
    if !item.FrameItem? {
      OtherItemsKeepConnections(e, item);
    }
    hide EngineOk, RowsShow, ProcessFrame, Emit, GapOpenedDraft, Plain, UnobservedGap;
    match item
    case FrameItem(f) => FrameShows(e, f);
    case GapItem(at, reason) =>
      var start := if e.lastHealthy == ZERO_TIME then at else e.lastHealthy;
      var e1 := e.(gapOpen := true, gapStart := start);
      ShowIgnoresFlags(e, e1);
      OpenedIsGlobal(start, at, reason);
      GlobalShows(e1, GapOpenedDraft(start, at, reason));
    case HealthItem(at, issue) =>
      HealthIsGlobal(at, issue);
      GlobalShows(e, Plain(CollectorHealth, at).(details := HealthIssue(ReportedIssue(issue))));
    case ShutdownItem(at) => UnobservedShows(e, at);
  }

  lemma OtherItemsKeepConnections(e: Engine, item: Item)
    requires !item.FrameItem?
    ensures Process(e, item).active == e.active
  {
    hide Plain, GapOpenedDraft, GapClosedDraft;
  }

  lemma {:induction false} RunShows(e: Engine, items: seq<Item>)
    requires EngineOk(e) && RowsShow(e) && SaneItems(items) && (e.bootstrap ==> e.active == map[])
    ensures RowsShow(RunFrom(e, items)) && (RunFrom(e, items).bootstrap ==> RunFrom(e, items).active == map[])
  {
    hide EngineOk, RowsShow, Process, SaneItem;
    if items != [] {
      assert items[|items| - 1] in items;
      RunShows(e, items[..|items| - 1]);
      RunKeepsOk(e, items[..|items| - 1]);
      ItemShows(RunFrom(e, items[..|items| - 1]), items[|items| - 1]);
    }
  }

  lemma NothingToShow(session: SessionId, created: Time)
    ensures RowsShow(NewEngine(session, created))
  {
  }

  /** In every reachable state a live connection has a row, and while the row is open it shows what the engine knows:
      metadata, route, attribution, total and baseline. The row of a live connection is ended exactly when the
      connection was introduced again by a Bootstrap, which leaves a row that is there as it was. */
  lemma RowsShowLiveState(session: SessionId, created: Time, items: seq<Item>, id: ConnId)
    requires SaneItems(items)
    ensures var e := RunFrom(NewEngine(session, created), items);
            && ProjectAll(e.log).Ok?
            && (id in e.active ==>
                  var k, s, rows := RowOf(e, id), e.active[id], ProjectAll(e.log).value.rows;
                  && k in rows
                  && (rows[k].ended == None <==> !Rebooted(e.log, k))
                  && (rows[k].ended == None ==>
                        && rows[k].meta == s.snap.meta && rows[k].route == s.route && rows[k].attr == s.attr
                        && rows[k].monitored == s.monitored && rows[k].baseline == s.baseline))
  {
    hide EngineOk, RunFrom, SaneItem, Rebooted, LatestDescription, LatestClass, LatestOrigin, LatestMonitored,
         UnderObservation, FirstSeen, EndedBy, Missing, Project, ProjectAll;
    var e := RunFrom(NewEngine(session, created), items);
    NewEngineOk(session, created);
    NothingToShow(session, created);
    RunShows(NewEngine(session, created), items);
    Pipeline.RunProjects(session, created, items);
    if id in e.active {
      AllRowLaws(e.log, RowOf(e, id));
      AllEvidenceLaws(e.log, RowOf(e, id));
      AllColumnLaws(e.log, RowOf(e, id));
    }
  }
}
