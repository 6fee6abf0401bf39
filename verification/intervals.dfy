/** The clock of an engine's log: connection events are dated by their frames, and when frame times
    strictly increase no traffic is attributed to an empty interval. */
module Intervals {
  import opened Types
  import opened Attribution
  import opened Decisions
  import opened Tombstones
  import opened Engine
  import opened EngineSafety
  import opened EngineRuns
  import opened EngineLog

  /** Traffic attributed to an interval names a non-empty one, and connection events are dated after the
      zero instant. */
  predicate Clocked(d: Draft) {
    && (d.conn.Some? ==> d.at > ZERO_TIME)
    && ((d.typ.ConnectionNew? || d.typ.ConnectionDelta?) && d.interval.Some? ==>
          d.interval.value.start < d.interval.value.end)
  }

  ghost predicate ClockedLog(log: seq<Event>) {
    forall ev :: ev in log ==> Clocked(ev.body)
  }

  /** Nothing the engine remembers was seen later than `at`. */
  ghost predicate SeenBy(e: Engine, at: Time) {
    && (forall id :: id in e.active ==> e.active[id].last <= at)
    && (forall id :: id in e.tombs.stones ==> e.tombs.stones[id].value.state.last <= at)
  }

  ghost predicate ClockOk(e: Engine) {
    && ClockedLog(e.log) && SeenBy(e, e.lastHealthy) && e.lastHealthy >= ZERO_TIME
    && (e.healthy ==> e.lastHealthy > ZERO_TIME)
    && (e.gapOpen ==> e.gapStart <= e.lastHealthy)
  }

  /** Frames arrive at strictly increasing instants. */
  predicate TimesIncrease(since: Time, items: seq<Item>) {
    items == []
    || var front, item := items[..|items| - 1], items[|items| - 1];
       TimesIncrease(since, front) && (item.FrameItem? ==> LastFrameTime(since, front) < item.frame.at)
  }

  lemma {:induction false} IncreasingTimesAscend(since: Time, items: seq<Item>)
    requires TimesIncrease(since, items)
    ensures TimesAscend(since, items)
  {
    if items != [] {
      IncreasingTimesAscend(since, items[..|items| - 1]);
    }
  }

  // ---------------------------------------------------------------------------------------------
  // One connection
  // ---------------------------------------------------------------------------------------------

  /** The decision about a connection last seen by `since` is dated by its frame and spans the time since. */
  ghost predicate DecidedAt(d: Decision, at: Time) {
    d.state.last <= at && forall x :: x in d.drafts ==> x.at == at && Clocked(x)
  }

  lemma EvolvedAt(prev: Active, c: Snapshot, at: Time)
    requires at > ZERO_TIME
    ensures forall x :: x in EvolveMeta(prev, c, at).0 ==> x.at == at && Clocked(x)
    ensures EvolveMeta(prev, c, at).1.last == prev.last
  {
    hide ClassifyRoute;
  }

  lemma TailAt(s: Active, c: Snapshot, at: Time, draft: Draft)
    requires draft.at == at && Clocked(draft) && at > ZERO_TIME
    ensures forall x :: x in DeltaOrPresence(s, c, at, draft).0 ==> x.at == at && Clocked(x)
    ensures DeltaOrPresence(s, c, at, draft).1.last == s.last
  {
  }

  lemma SteadyAt(prev: Active, c: Snapshot, at: Time, confirmed: bool)
    requires prev.last <= at && at > ZERO_TIME
    ensures DecidedAt(ObserveSteady(prev, c, at, confirmed), at)
  {
    hide EvolveMeta, DeltaOrPresence;
    EvolvedAt(prev, c, at);
    var s := EvolveMeta(prev, c, at).1;
    var s1 := EvolveClass(s, c, at, confirmed).1;
    var delta := Clamped(CounterDelta(c, prev.counters));
    var s2 := Observe(s1, c, at, delta);
    TailAt(s2, c, at, DeltaOf(s2, c, at, delta));
  }

  lemma AcrossGapAt(prev: Active, c: Snapshot, at: Time, gapStart: Time)
    requires prev.last <= at && gapStart < at && at > ZERO_TIME
    ensures DecidedAt(ObserveAcrossGap(prev, c, at, gapStart), at)
  {
    hide DeltaOrPresence;
    var regressed := Regressed(c, prev.counters);
    var delta := if regressed then NO_BYTES else CounterDelta(c, prev.counters);
    var s := Observe(prev.(evidence := if regressed then at else prev.evidence), c, at, delta);
    TailAt(s, c, at, DeltaOf(s, c, at, delta).(precision := IntervalOnly, interval := Some(Interval(gapStart, at))));
  }

  lemma ReobservedAt(tomb: Tomb, c: Snapshot, at: Time, confirmed: bool)
    requires tomb.state.last < at && at > ZERO_TIME
    ensures DecidedAt(Reobserve(tomb, c, at, confirmed), at)
  {
    hide ClassifyRoute, InitialAttr, Clamped;
  }

  lemma FirstSightAt(c: Snapshot, at: Time, confirmed: bool)
    requires at > ZERO_TIME
    ensures DecidedAt(ObserveNew(c, at, confirmed), at)
    ensures DecidedAt(ObserveBootstrap(c, at), at) && DecidedAt(ObserveAfterGap(c, at), at)
  {
    hide ClassifyRoute, InitialAttr;
  }

  lemma DecideAt(e: Engine, c: Snapshot, at: Time, mode: Mode, since: Time)
    requires ZERO_TIME <= since < at && (mode.Recovering? ==> mode.gapStart <= since)
    requires c.id in e.active ==> e.active[c.id].last <= since
    requires c.id in e.tombs.stones ==> e.tombs.stones[c.id].value.state.last <= since
    ensures DecidedAt(Decide(e, c, at, mode), at)
  {
    hide ObserveSteady, ObserveAcrossGap, Reobserve, ObserveNew, ObserveBootstrap, ObserveAfterGap, DecidedAt;
    FirstSightAt(c, at, mode.Steady? && c.id in mode.confirmed);
    if c.id in e.active {
      SteadyAt(e.active[c.id], c, at, mode.Steady? && c.id in mode.confirmed);
      if mode.Recovering? {
        AcrossGapAt(e.active[c.id], c, at, mode.gapStart);
      }
    } else if c.id in e.tombs.stones {
      ReobservedAt(e.tombs.stones[c.id].value, c, at, mode.Steady? && c.id in mode.confirmed);
    }
  }

  // ---------------------------------------------------------------------------------------------
  // The loops of a frame
  // ---------------------------------------------------------------------------------------------

  lemma EmitStaysClocked(e: Engine, ds: seq<Draft>)
    requires ClockedLog(e.log) && forall d :: d in ds ==> Clocked(d)
    ensures ClockedLog(Emit(e, ds).log)
  {
    hide Clocked;
    var more := Stamped(ds, e.session, e.epoch, e.frame, e.seqno);
    forall ev | ev in more ensures Clocked(ev.body) {
      var i :| 0 <= i < |more| && more[i] == ev;
      assert ds[i] in ds;
    }
  }

  /** The connection loop: what was not yet processed was last seen by `since`. */
  lemma {:induction false} ConnStepsAt(e: Engine, conns: seq<Snapshot>, at: Time, mode: Mode, since: Time)
    requires ZERO_TIME <= since < at && (mode.Recovering? ==> mode.gapStart <= since) && DistinctIds(conns)
    requires ClockedLog(e.log) && SeenBy(e, since)
    ensures ClockedLog(ConnSteps(e, conns, at, mode).log) && SeenBy(ConnSteps(e, conns, at, mode), at)
  {
    hide Decide, Clocked, ClockedLog, Emit;
    if conns != [] {
      var front, c := conns[..|conns| - 1], conns[|conns| - 1];
      assert forall x :: x in front ==> x.id != c.id;
      var s := ConnSteps(e, front, at, mode);
      ConnStepsAt(e, front, at, mode, since);
      OthersLeaveAlone(e, front, at, mode, c);
      DecideAt(s, c, at, mode, since);
      EmitStaysClocked(s, Decide(s, c, at, mode).drafts);
      StepTouchesOne(s, c, at, mode);
      StepLogs(s, c, at, mode);
    }
  }

  lemma StepLogs(e: Engine, c: Snapshot, at: Time, mode: Mode)
    ensures ConnStep(e, c, at, mode).log == Emit(e, Decide(e, c, at, mode).drafts).log
  {
  }

  lemma {:induction false} TrimShrinks<T>(g: Graveyard<T>)
    ensures forall x :: x in Trim(g).stones ==> x in g.stones && Trim(g).stones[x] == g.stones[x]
    decreases |g.fifo|
  {
    if |g.fifo| > MAX_TOMBSTONES {
      TrimShrinks(Evict(g));
    }
  }

  lemma {:induction false} CloseAllAt(e: Engine, ids: seq<ConnId>, at: Time)
    requires at > ZERO_TIME && ClockedLog(e.log) && SeenBy(e, at)
    ensures ClockedLog(CloseAll(e, ids, at).log) && SeenBy(CloseAll(e, ids, at), at)
  {
    hide Clocked, ClockedLog, Emit, Trim;
    if ids != [] {
      var front, id := ids[..|ids| - 1], ids[|ids| - 1];
      CloseAllAt(e, front, at);
      var s := CloseAll(e, front, at);
      if id in s.active {
        var d := DisappearedDraft(id, s.active[id], at);
        assert Clocked(d) by { DisappearanceIsClocked(id, s.active[id], at); }
        EmitStaysClocked(s, [d]);
        TrimShrinks(Push(s.tombs, id, Tomb(s.active[id], at)));
      }
    }
  }

  lemma DisappearanceIsClocked(id: ConnId, s: Active, at: Time)
    requires at > ZERO_TIME
    ensures Clocked(DisappearedDraft(id, s, at))
  {
  }

  // ---------------------------------------------------------------------------------------------
  // Frames and items
  // ---------------------------------------------------------------------------------------------

  lemma GlobalsAreClocked(start: Time, at: Time)
    ensures forall details :: Clocked(GapClosedDraft(start, at, details))
    ensures forall reason :: Clocked(GapOpenedDraft(start, at, reason))
    ensures forall kind, global, unique, residual :: Clocked(ResidualDraft(kind, global, unique, residual, at))
    ensures Clocked(Plain(CounterEpochBreak, at))
    ensures forall issue :: Clocked(Plain(CollectorHealth, at).(details := HealthIssue(ReportedIssue(issue))))
  {
  }

  /** What a frame at `at` leaves behind. */
  ghost predicate FrameDone(e: Engine, at: Time) {
    ClockedLog(e.log) && SeenBy(e, at) && e.lastHealthy == at
  }

  lemma GlobalsStayClocked(e: Engine, ds: seq<Draft>, at: Time)
    requires ClockedLog(e.log) && SeenBy(e, at) && forall d :: d in ds ==> Clocked(d)
    ensures ClockedLog(Emit(e, ds).log) && SeenBy(Emit(e, ds), at) && Emit(e, ds).lastHealthy == e.lastHealthy
  {
    hide Clocked, ClockedLog;
    EmitStaysClocked(e, ds);
  }

  lemma UnobservedStaysClocked(e: Engine, start: Time, end: Time, at: Time)
    requires ClockedLog(e.log) && SeenBy(e, at)
    ensures var e' := UnobservedGap(e, start, end);
            ClockedLog(e'.log) && SeenBy(e', at) && e'.lastHealthy == e.lastHealthy
    ensures SameScalars(e, UnobservedGap(e, start, end).(unobserved := e.unobserved))
  {
    hide Clocked, ClockedLog, GapOpenedDraft, GapClosedDraft;
    GlobalsAreClocked(start, end);
    GlobalsStayClocked(e, [GapOpenedDraft(start, end, UNREACHABLE), GapClosedDraft(start, end, GapReason(UNREACHABLE))],
                       at);
  }

  lemma BootAt(e: Engine, f: Frame)
    requires ClockedLog(e.log) && f.at > ZERO_TIME && DistinctIds(f.conns)
    ensures FrameDone(BootFrame(e, f), f.at) && BootFrame(e, f).healthy && BootFrame(e, f).gapOpen == e.gapOpen
  {
    hide Clocked, ClockedLog, ConnSteps, Emit, ResidualDraft, UnobservedGap;
    var e0 := e.(active := map[], tombs := Clear(e.tombs));
    ConnStepsAt(e0, f.conns, f.at, Booting, ZERO_TIME);
    ConnStepsKeepScalars(e0, f.conns, f.at, Booting);
    var e1 := ConnSteps(e0, f.conns, f.at, Booting).(total := f.total, lastHealthy := f.at);
    UnobservedStaysClocked(e1, e1.created, f.at, f.at);
    var e2 := (if e1.healthy then e1 else UnobservedGap(e1, e1.created, f.at)).(healthy := true, bootstrap := false);
    GlobalsAreClocked(0, f.at);
    GlobalsStayClocked(e2, [ResidualDraft(BootstrapFrame, NO_BYTES, NO_BYTES, NO_BYTES, f.at)], f.at);
    EmitKeepsFlags(e2, [ResidualDraft(BootstrapFrame, NO_BYTES, NO_BYTES, NO_BYTES, f.at)]);
  }

  lemma EmitKeepsFlags(e: Engine, ds: seq<Draft>)
    ensures SameScalars(e, Emit(e, ds)) && Emit(e, ds).active == e.active && Emit(e, ds).tombs == e.tombs
  {
  }

  /** The two frames that keep the connection map. */
  lemma LoopsAt(e: Engine, f: Frame, mode: Mode)
    requires ClockedLog(e.log) && SeenBy(e, e.lastHealthy) && ZERO_TIME <= e.lastHealthy < f.at && DistinctIds(f.conns)
    requires mode.Recovering? ==> mode.gapStart <= e.lastHealthy
    ensures var e' := CloseMissing(ConnSteps(e, f.conns, f.at, mode), f.conns, f.at);
            ClockedLog(e'.log) && SeenBy(e', f.at) && SameScalars(e, e')
  {
    hide Clocked, ClockedLog, SeenBy, ConnSteps, CloseAll, Ascending;
    ConnStepsAt(e, f.conns, f.at, mode, e.lastHealthy);
    ConnStepsKeepScalars(e, f.conns, f.at, mode);
    var s := ConnSteps(e, f.conns, f.at, mode);
    CloseAllAt(s, Ascending(s.active.Keys - IdsOf(f.conns)), f.at);
    CloseAllKeepsScalars(s, Ascending(s.active.Keys - IdsOf(f.conns)), f.at);
  }

  lemma RecoverAt(e: Engine, f: Frame)
    requires ClockedLog(e.log) && SeenBy(e, e.lastHealthy) && ZERO_TIME <= e.lastHealthy < f.at && DistinctIds(f.conns)
    requires e.gapStart <= e.lastHealthy
    ensures FrameDone(RecoverFrame(e, f), f.at) && RecoverFrame(e, f).healthy == e.healthy
            && !RecoverFrame(e, f).gapOpen
  {
    hide Clocked, ClockedLog, ConnSteps, CloseMissing, Emit, ResidualDraft, GapClosedDraft;
    var global := Since(f, e.total);
    var closed := [GapClosedDraft(e.gapStart, f.at, GapDelta(global))];
    GlobalsAreClocked(e.gapStart, f.at);
    GlobalsStayClocked(e, closed, e.lastHealthy);
    EmitKeepsFlags(e, closed);
    LoopsAt(Emit(e, closed), f, Recovering(e.gapStart));
    var e1 := CloseMissing(ConnSteps(Emit(e, closed), f.conns, f.at, Recovering(e.gapStart)), f.conns, f.at);
    var e2 := e1.(total := f.total, lastHealthy := f.at, gapOpen := false);
    GlobalsStayClocked(e2, [ResidualDraft(RecoveryFrame, global, NO_BYTES, NO_BYTES, f.at)], f.at);
    EmitKeepsFlags(e2, [ResidualDraft(RecoveryFrame, global, NO_BYTES, NO_BYTES, f.at)]);
  }

  lemma ObserveAt(e: Engine, f: Frame)
    requires ClockedLog(e.log) && SeenBy(e, e.lastHealthy) && ZERO_TIME <= e.lastHealthy < f.at && DistinctIds(f.conns)
    ensures FrameDone(ObserveFrame(e, f), f.at) && ObserveFrame(e, f).healthy == e.healthy
    ensures ObserveFrame(e, f).gapOpen == e.gapOpen
  {
    hide Clocked, ClockedLog, ConnSteps, CloseMissing, Emit, ResidualDraft, UniqueObserved, ConfirmedIn;
    var mode := Steady(ConfirmedIn(e, f.conns));
    LoopsAt(e, f, mode);
    var e1 := CloseMissing(ConnSteps(e, f.conns, f.at, mode), f.conns, f.at);
    var global, unique := Since(f, e.total), UniqueObserved(e, f.conns, f.at, mode);
    var d := ResidualDraft(SteadyFrame, global, unique, Bytes(global.up - unique.up, global.down - unique.down), f.at);
    GlobalsAreClocked(0, f.at);
    GlobalsStayClocked(e1, [d], f.at);
    EmitKeepsFlags(e1, [d]);
  }

  lemma BreakAt(b: Engine, f: Frame, ds: seq<Draft>)
    requires ClockedLog(b.log) && f.at > ZERO_TIME && DistinctIds(f.conns) && forall d :: d in ds ==> Clocked(d)
    ensures var e' := BootFrame(BreakEpoch(Emit(b, ds)).(gapOpen := false), f);
            FrameDone(e', f.at) && e'.healthy && !e'.gapOpen
  {
    hide Clocked, ClockedLog, BootFrame, Emit, FrameDone;
    EmitStaysClocked(b, ds);
    BootAt(BreakEpoch(Emit(b, ds)).(gapOpen := false), f);
  }

  lemma FrameKeepsClock(e: Engine, f: Frame)
    requires ClockOk(e) && e.lastHealthy < f.at && DistinctIds(f.conns)
    ensures ClockOk(ProcessFrame(e, f)) && ProcessFrame(e, f).lastHealthy == f.at
  {
    hide Clocked, ClockedLog, BootFrame, RecoverFrame, ObserveFrame, Emit, GapClosedDraft;
    var b := BeginFrame(e);
    GlobalsAreClocked(e.gapStart, f.at);
    if e.gapOpen {
      if TotalsRegress(e, f) {
        BreakAt(b, f, [GapClosedDraft(e.gapStart, f.at, GapDeltaUnavailable), Plain(CounterEpochBreak, f.at)]);
      } else {
        RecoverAt(b, f);
      }
    } else if !e.bootstrap && TotalsRegress(e, f) {
      var broken := [Plain(CounterEpochBreak, f.at)];
      BreakAt(b, f, broken);
      EmitKeepsFlags(b, broken);
      assert BreakEpoch(Emit(b, broken)).(gapOpen := false) == BreakEpoch(Emit(b, broken));
    } else if e.bootstrap {
      BootAt(b, f);
    } else {
      ObserveAt(b, f);
    }
  }

  lemma ProcessKeepsClock(e: Engine, item: Item)
    requires ClockOk(e) && SaneItem(item) && (item.FrameItem? ==> e.lastHealthy < item.frame.at)
    ensures ClockOk(Process(e, item))
    ensures Process(e, item).lastHealthy == if item.FrameItem? then item.frame.at else e.lastHealthy
  {
    hide Clocked, ClockedLog, ProcessFrame, Emit, GapOpenedDraft, UnobservedGap;
    match item
    case FrameItem(f) =>
      FrameKeepsClock(e, f);
    case GapItem(at, reason) =>
      var start := if e.lastHealthy == ZERO_TIME then at else e.lastHealthy;
      GlobalsAreClocked(start, at);
      GlobalsStayClocked(e.(gapOpen := true, gapStart := start), [GapOpenedDraft(start, at, reason)], e.lastHealthy);
      EmitKeepsFlags(e.(gapOpen := true, gapStart := start), [GapOpenedDraft(start, at, reason)]);
    case HealthItem(at, issue) =>
      var d := Plain(CollectorHealth, at).(details := HealthIssue(ReportedIssue(issue)));
      GlobalsAreClocked(0, at);
      GlobalsStayClocked(e, [d], e.lastHealthy);
      EmitKeepsFlags(e, [d]);
    case ShutdownItem(at) =>
      UnobservedStaysClocked(e, e.created, at, e.lastHealthy);
  }

  lemma {:induction false} RunKeepsClock(e: Engine, items: seq<Item>)
    requires ClockOk(e) && SaneItems(items) && TimesIncrease(e.lastHealthy, items)
    ensures ClockOk(RunFrom(e, items)) && RunFrom(e, items).lastHealthy == LastFrameTime(e.lastHealthy, items)
  {
    hide ClockOk, Process, SaneItem;
    if items != [] {
      assert items[|items| - 1] in items;
      RunKeepsClock(e, items[..|items| - 1]);
      ProcessKeepsClock(RunFrom(e, items[..|items| - 1]), items[|items| - 1]);
    }
  }

  /** In every run whose frame times strictly increase, no New or Delta event carries an empty interval,
      and every connection event is dated after the zero instant. */
  lemma RunsAreClocked(session: SessionId, created: Time, items: seq<Item>)
    requires SaneItems(items) && TimesIncrease(ZERO_TIME, items)
    ensures ClockedLog(RunFrom(NewEngine(session, created), items).log)
  {
    RunKeepsClock(NewEngine(session, created), items);
  }
}
