/** Theorems about whole engine runs: acceptability downstream, byte conservation, lifecycle counters
    and sparse evidence. */
module EngineRuns {
  import opened Types
  import opened EventLog
  import opened Decisions
  import opened Tombstones
  import opened Engine
  import opened EngineSafety

  /** The frame starts a new baseline: the first healthy frame, or a counter epoch break. */
  predicate Rebaselines(e: Engine, item: Item) {
    item.FrameItem? && (e.bootstrap || TotalsRegress(e, item.frame))
  }

  lemma FrameKeepsOk(e: Engine, f: Frame)
    requires EngineOk(e) && SaneItem(FrameItem(f))
    ensures var e' := ProcessFrame(e, f);
            && EngineOk(e') && e'.total == f.total && !e'.bootstrap
            && e'.epoch == e.epoch + (if !e.bootstrap && TotalsRegress(e, f) then 1 else 0)
            && (if Rebaselines(e, FrameItem(f)) then Booked(e') == Booked(e)
                else Booked(e') == Bytes(Booked(e).up + Since(f, e.total).up, Booked(e).down + Since(f, e.total).down))
  {
    hide Inner, BootFrame, RecoverFrame, ObserveFrame, GapAfter, Bodies, Contributions, SaneSnapshot, Plain, BreakEpoch;
    var b := BeginFrame(e);
    InnerIgnoresFlags(e, b);
    if e.gapOpen {
      if TotalsRegress(e, f) {
        BrokenGap(b, f);
      } else {
        RecoverKeepsOk(b, f);
      }
    } else if !e.bootstrap && TotalsRegress(e, f) {
      BrokenSteady(b, f);
    } else if e.bootstrap {
      BootKeepsOk(b, f);
    } else {
      SteadyKeepsOk(b, f);
    }
  }

  lemma BrokenSteady(b: Engine, f: Frame)
    requires Inner(b) && GapIs(b, false) && !b.gapOpen && SaneItem(FrameItem(f))
    ensures var e' := BootFrame(BreakEpoch(Emit(b, [Plain(CounterEpochBreak, f.at)])), f);
            EngineOk(e') && Booked(e') == Booked(b) && e'.total == f.total && !e'.bootstrap && e'.epoch == b.epoch + 1
  {
    hide Inner, BootFrame, GapAfter, Bodies, Contributions, SaneSnapshot, Plain;
    BreakKeepsInner(b, f.at);
    BootKeepsOk(BreakEpoch(Emit(b, [Plain(CounterEpochBreak, f.at)])), f);
  }

  lemma BrokenGap(b: Engine, f: Frame)
    requires Inner(b) && GapIs(b, true) && SaneItem(FrameItem(f))
    ensures var e' := BootFrame(BreakEpoch(Emit(b,
                                                [GapClosedDraft(b.gapStart, f.at, GapDeltaUnavailable),
                                                 Plain(CounterEpochBreak, f.at)]))
                                  .(gapOpen := false), f);
            EngineOk(e') && Booked(e') == Booked(b) && e'.total == f.total && !e'.bootstrap && e'.epoch == b.epoch + 1
  {
    hide Inner, BootFrame, GapAfter, Bodies, Contributions, SaneSnapshot, Plain, GapClosedDraft;
    var closed, broken := GapClosedDraft(b.gapStart, f.at, GapDeltaUnavailable), Plain(CounterEpochBreak, f.at);
    GapDraftsAreGlobal(b.gapStart, f.at);
    GlobalKeepsInner(b, closed);
    var b1 := Emit(b, [closed]);
    BreakKeepsInner(b1, f.at);
    EmitTwice(b, [closed], [broken]);
    assert [closed] + [broken] == [closed, broken];
    var b2 := BreakEpoch(Emit(b1, [broken]));
    InnerIgnoresFlags(b2, b2.(gapOpen := false));
    BootKeepsOk(b2.(gapOpen := false), f);
  }

  lemma OpenGapKeepsOk(e: Engine, at: Time, reason: string)
    requires EngineOk(e)
    ensures EngineOk(OpenGap(e, at, reason)) && Booked(OpenGap(e, at, reason)) == Booked(e)
    ensures SameScalars(e, OpenGap(e, at, reason).(gapOpen := e.gapOpen, gapStart := e.gapStart))
  {
    hide Inner, GapAfter, Bodies, Contributions, GapOpenedDraft;
    if e.healthy && !e.gapOpen {
      var start := if e.lastHealthy == ZERO_TIME then at else e.lastHealthy;
      var e1 := e.(gapOpen := true, gapStart := start);
      InnerIgnoresFlags(e, e1);
      OpenedIsGlobal(start, at, reason);
      GlobalKeepsInner(e1, GapOpenedDraft(start, at, reason));
    }
  }

  lemma OpenedIsGlobal(start: Time, at: Time, reason: string)
    ensures var d := GapOpenedDraft(start, at, reason);
            Global(d) && d.typ.MonitoringGapOpened? && Contribution(d) == NO_BYTES
  {
  }

  lemma HealthIsGlobal(at: Time, issue: string)
    ensures var d := Plain(CollectorHealth, at).(details := HealthIssue(ReportedIssue(issue)));
            Global(d) && d.typ.CollectorHealth? && Contribution(d) == NO_BYTES
  {
  }

  /** Every item keeps the invariant; what it does to the controller total is exactly what it books,
      unless it starts a new baseline. */
  lemma ProcessKeepsOk(e: Engine, item: Item)
    requires EngineOk(e) && SaneItem(item)
    ensures var e' := Process(e, item);
            && EngineOk(e')
            && e'.epoch == e.epoch + (if Rebaselines(e, item) && !e.bootstrap then 1 else 0)
            && (e'.bootstrap <==> e.bootstrap && !item.FrameItem?)
            && (if Rebaselines(e, item) then Booked(e') == Booked(e)
                else && Booked(e').up - Booked(e).up == e'.total.up - e.total.up
                     && Booked(e').down - Booked(e).down == e'.total.down - e.total.down)
  {
    hide Inner, ProcessFrame, OpenGap, UnobservedGap, GapAfter, Bodies, Contributions, SaneSnapshot, Plain;
    match item
    case FrameItem(f) => FrameKeepsOk(e, f);
    case GapItem(at, reason) => OpenGapKeepsOk(e, at, reason);
    case HealthItem(at, issue) =>
      HealthIsGlobal(at, issue);
      GlobalKeepsInner(e, Plain(CollectorHealth, at).(details := HealthIssue(ReportedIssue(issue))));
    case ShutdownItem(at) =>
      if !e.healthy {
        UnobservedGapKeeps(e, e.created, at);
      }
  }

  ghost predicate SaneItems(items: seq<Item>) {
    forall item :: item in items ==> SaneItem(item)
  }

  lemma {:induction false} RunKeepsOk(e: Engine, items: seq<Item>)
    requires EngineOk(e) && SaneItems(items)
    ensures EngineOk(RunFrom(e, items)) && e.epoch <= RunFrom(e, items).epoch
    ensures !e.bootstrap ==> !RunFrom(e, items).bootstrap
  {
    hide EngineOk, Process, SaneItem, Rebaselines;
    if items != [] {
      assert items[|items| - 1] in items;
      RunKeepsOk(e, items[..|items| - 1]);
      ProcessKeepsOk(RunFrom(e, items[..|items| - 1]), items[|items| - 1]);
    }
  }

  lemma NewEngineOk(session: SessionId, created: Time)
    ensures EngineOk(NewEngine(session, created))
  {
    assert Bodies([]) == [];
  }

  /** In every run every event is legal when it is emitted: rows are introduced before they are named,
      gap Opened and Closed alternate and match the engine's flag, and the monitored total carried by
      every New, Delta and Bootstrap event is the sum of the deltas of its lifecycle. */
  lemma RunsAreLegal(session: SessionId, created: Time, items: seq<Item>)
    requires SaneItems(items)
    ensures var e := RunFrom(NewEngine(session, created), items);
            AllLegal(Bodies(e.log)) && GapAfter(false, Bodies(e.log)) == e.gapOpen
  {
    NewEngineOk(session, created);
    RunKeepsOk(NewEngine(session, created), items);
  }

  /** Lifecycle counters, in every reachable state: a live connection's monitored total is the sum of
      the deltas emitted since its lifecycle began, across flaps and gaps; without a reported regression
      it is the last counter minus the baseline, so a flap never counts twice. */
  lemma LifecycleCounters(session: SessionId, created: Time, items: seq<Item>, id: ConnId)
    requires SaneItems(items)
    ensures var e := RunFrom(NewEngine(session, created), items);
            id in e.active ==>
              var t := TrackOf(Bodies(e.log), id);
              && e.active[id].monitored == t.sum
              && e.active[id].evidence == t.evidence
              && (!t.regressed ==> e.active[id].monitored.up == e.active[id].counters.up - e.active[id].baseline.up
                                   && e.active[id].monitored.down
                                       == e.active[id].counters.down - e.active[id].baseline.down)
  {
    hide TrackFrom, Bodies, AllLegal;
    NewEngineOk(session, created);
    RunKeepsOk(NewEngine(session, created), items);
  }

  // ---------------------------------------------------------------------------------------------
  // Conservation
  // ---------------------------------------------------------------------------------------------

  lemma {:induction false} BookedIsConserved(e: Engine, items: seq<Item>)
    requires EngineOk(e) && SaneItems(items) && !e.bootstrap
    requires RunFrom(e, items).epoch == e.epoch
    ensures RunFrom(e, items).total.up - e.total.up == Booked(RunFrom(e, items)).up - Booked(e).up
    ensures RunFrom(e, items).total.down - e.total.down == Booked(RunFrom(e, items)).down - Booked(e).down
  {
    hide EngineOk, Process, SaneItem, Booked;
    if items != [] {
      var front, item := items[..|items| - 1], items[|items| - 1];
      assert item in items;
      RunKeepsOk(e, front);
      ProcessKeepsOk(RunFrom(e, front), item);
      BookedIsConserved(e, front);
    }
  }

  lemma EmitGrows(e: Engine, ds: seq<Draft>)
    ensures e.log <= Emit(e, ds).log
  {
  }

  lemma {:induction false} ConnStepsGrow(e: Engine, conns: seq<Snapshot>, at: Time, mode: Mode)
    ensures e.log <= ConnSteps(e, conns, at, mode).log
  {
    hide Decide, TombsAfter;
    if conns != [] {
      ConnStepsGrow(e, conns[..|conns| - 1], at, mode);
      var s := ConnSteps(e, conns[..|conns| - 1], at, mode);
      EmitGrows(s, Decide(s, conns[|conns| - 1], at, mode).drafts);
    }
  }

  lemma {:induction false} CloseAllGrows(e: Engine, ids: seq<ConnId>, at: Time)
    ensures e.log <= CloseAll(e, ids, at).log
  {
    hide Bury;
    if ids != [] {
      CloseAllGrows(e, ids[..|ids| - 1], at);
    }
  }

  lemma FramesGrow(e: Engine, f: Frame)
    ensures e.log <= BootFrame(e, f).log && e.log <= RecoverFrame(e, f).log && e.log <= ObserveFrame(e, f).log
  {
    hide ConnSteps, CloseAll, Decide, Plain, ConfirmedIn, UniqueObserved, Ascending;
    ConnStepsGrow(e.(active := map[], tombs := Clear(e.tombs)), f.conns, f.at, Booting);
    var closed := Emit(e, [GapClosedDraft(e.gapStart, f.at, GapDelta(Since(f, e.total)))]);
    ConnStepsGrow(closed, f.conns, f.at, Recovering(e.gapStart));
    var r := ConnSteps(closed, f.conns, f.at, Recovering(e.gapStart));
    CloseAllGrows(r, Ascending(r.active.Keys - IdsOf(f.conns)), f.at);
    ConnStepsGrow(e, f.conns, f.at, Steady(ConfirmedIn(e, f.conns)));
    var s := ConnSteps(e, f.conns, f.at, Steady(ConfirmedIn(e, f.conns)));
    CloseAllGrows(s, Ascending(s.active.Keys - IdsOf(f.conns)), f.at);
  }

  lemma ProcessGrows(e: Engine, item: Item)
    ensures e.log <= Process(e, item).log
  {
    hide BootFrame, RecoverFrame, ObserveFrame, Plain;
    if item.FrameItem? {
      var f, b := item.frame, BeginFrame(e);
      var closed := [GapClosedDraft(e.gapStart, f.at, GapDeltaUnavailable), Plain(CounterEpochBreak, f.at)];
      FramesGrow(b, f);
      FramesGrow(BreakEpoch(Emit(b, closed)).(gapOpen := false), f);
      FramesGrow(BreakEpoch(Emit(b, [Plain(CounterEpochBreak, f.at)])), f);
    }
  }

  lemma {:induction false} RunGrows(e: Engine, items: seq<Item>)
    ensures e.log <= RunFrom(e, items).log
  {
    hide Process;
    if items != [] {
      RunGrows(e, items[..|items| - 1]);
      ProcessGrows(RunFrom(e, items[..|items| - 1]), items[|items| - 1]);
    }
  }

  /** Byte conservation over every run: between any two moments of one counter epoch, the controller
      total grew by exactly what the events emitted in between account for: deltas of New and Delta events
      not classed confirmed duplicate plus residuals in steady frames, and gap deltas in recovery frames. */
  lemma BytesAreConserved(e: Engine, items: seq<Item>)
    requires EngineOk(e) && SaneItems(items) && !e.bootstrap
    requires RunFrom(e, items).epoch == e.epoch
    ensures e.log <= RunFrom(e, items).log
    ensures var between := Contributions(Bodies(RunFrom(e, items).log[|e.log|..]));
            && RunFrom(e, items).total.up == e.total.up + between.up
            && RunFrom(e, items).total.down == e.total.down + between.down
  {
    hide EngineOk, RunFrom, SaneItems, Contributions;
    var e' := RunFrom(e, items);
    RunGrows(e, items);
    BookedIsConserved(e, items);
    assert Bodies(e'.log) == Bodies(e.log) + Bodies(e'.log[|e.log|..]);
    ContributionsConcat(Bodies(e.log), Bodies(e'.log[|e.log|..]));
  }
}
