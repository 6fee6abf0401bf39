/** The shape of an engine's log: strictly increasing positions, frames sealed by their residual,
    ordered frame times and non-negative traffic, whatever the run. */
module EngineLog {
  import opened Types
  import opened EventLog
  import opened Decisions
  import opened Tombstones
  import opened Engine
  import opened EngineSafety
  import opened EngineRuns
  import Evidence
  import Accounting

  // ---------------------------------------------------------------------------------------------
  // One emitted event at a time
  // ---------------------------------------------------------------------------------------------

  /** Positions increase lexicographically in (epoch, frame, event), frames do not go back, and all
      lie before the engine's own position. */
  ghost predicate Positioned(log: seq<Event>, session: SessionId, epoch: nat, frame: nat, seqno: nat) {
    && (forall i, j :: 0 <= i < j < |log| ==> Before(log[i].pos, log[j].pos) && log[i].pos.frame <= log[j].pos.frame)
    && (forall ev :: ev in log ==>
          ev.pos.session == session && ev.pos.frame <= frame && Before(ev.pos, Pos(session, epoch, frame, seqno + 1)))
  }

  /** No connection event follows a frame's residual in the same frame. */
  ghost predicate Sealed(log: seq<Event>) {
    forall i, j :: 0 <= i < j < |log| && log[i].body.typ.SamplingResidual? && log[i].pos.frame == log[j].pos.frame
                   ==> log[j].body.conn.None?
  }

  /** The current frame has no residual yet. */
  ghost predicate Unsealed(log: seq<Event>, frame: nat) {
    forall ev :: ev in log && ev.pos.frame == frame ==> !ev.body.typ.SamplingResidual?
  }

  /** Frame evidence is in time order, none later than `at`. */
  ghost predicate Timed(log: seq<Event>, at: Time) {
    && Evidence.FrameOrdered(log)
    && forall session, epoch :: Evidence.FrameTime(log, session, epoch) <= at
  }

  predicate NoBreak(log: seq<Event>, i: nat, j: nat)
    requires j <= |log|
  {
    forall k :: i <= k < j ==> !log[k].body.typ.CounterEpochBreak?
  }

  /** Events without an epoch break between them share their epoch; the engine's is the latest. */
  ghost predicate Dated(log: seq<Event>, epoch: nat) {
    && (forall i, j :: 0 <= i < j < |log| && NoBreak(log, i, j) ==> log[i].pos.epoch == log[j].pos.epoch)
    && (forall i :: 0 <= i < |log| && NoBreak(log, i, |log|) ==> log[i].pos.epoch == epoch)
  }

  ghost predicate ProperLog(log: seq<Event>) {
    forall ev :: ev in log ==> ProperDelta(ev.body)
  }

  /** What every point inside a frame observed at `at` satisfies; `timed` when frames arrive in time order. */
  ghost predicate InFrame(e: Engine, at: Time, timed: bool) {
    && Positioned(e.log, e.session, e.epoch, e.frame, e.seqno)
    && Sealed(e.log) && ProperLog(e.log) && Dated(e.log, e.epoch)
    && (timed ==> Timed(e.log, at))
  }

  /** An event a frame may emit: frame evidence carries the frame's time. */
  predicate Emittable(d: Draft, at: Time) {
    && (d.conn.Some? || d.typ.SamplingResidual? ==> d.at == at)
    && ProperDelta(d)
  }

  lemma AppendPositioned(log: seq<Event>, session: SessionId, epoch: nat, frame: nat, seqno: nat, d: Draft)
    requires Positioned(log, session, epoch, frame, seqno)
    ensures Positioned(log + [Event(Pos(session, epoch, frame, seqno + 1), d)], session, epoch, frame, seqno + 1)
  {
    var ev := Event(Pos(session, epoch, frame, seqno + 1), d);
    var log' := log + [ev];
    forall i, j | 0 <= i < j < |log'|
      ensures Before(log'[i].pos, log'[j].pos) && log'[i].pos.frame <= log'[j].pos.frame
    {
      assert log'[i] in log;
    }
  }

  lemma AppendSealed(log: seq<Event>, ev: Event)
    requires Sealed(log) && (ev.body.conn.None? || Unsealed(log, ev.pos.frame))
    ensures Sealed(log + [ev])
  {
    var log' := log + [ev];
    forall i, j | 0 <= i < j < |log'| && log'[i].body.typ.SamplingResidual? && log'[i].pos.frame == log'[j].pos.frame
      ensures log'[j].body.conn.None?
    {
      assert log'[i] in log;
    }
  }

  lemma AppendDated(log: seq<Event>, epoch: nat, ev: Event)
    requires Dated(log, epoch) && ev.pos.epoch == epoch
    ensures Dated(log + [ev], epoch)
  {
    var log' := log + [ev];
    forall i, j | 0 <= i < j < |log'| && NoBreak(log', i, j) ensures log'[i].pos.epoch == log'[j].pos.epoch {
      assert forall k :: i <= k < j ==> log'[k] == log[k];
      assert NoBreak(log, i, j);
    }
    forall i | 0 <= i < |log'| && NoBreak(log', i, |log'|) ensures log'[i].pos.epoch == epoch {
      if i < |log| {
        assert forall k :: i <= k < |log| ==> log'[k] == log[k];
        assert NoBreak(log, i, |log|);
      }
    }
  }

  lemma AppendTimed(log: seq<Event>, ev: Event, at: Time)
    requires Timed(log, at) && Emittable(ev.body, at)
    ensures Timed(log + [ev], at)
  {
    assert (log + [ev])[..|log + [ev]| - 1] == log;
  }

  lemma EmitOne(e: Engine, d: Draft, at: Time, timed: bool)
    requires InFrame(e, at, timed) && Emittable(d, at) && (d.conn.None? || Unsealed(e.log, e.frame))
    ensures InFrame(Emit(e, [d]), at, timed)
    ensures Unsealed(e.log, e.frame) && !d.typ.SamplingResidual? ==> Unsealed(Emit(e, [d]).log, e.frame)
  {
    hide Positioned, Sealed, Timed, Emittable, Dated;
    var ev := Event(Pos(e.session, e.epoch, e.frame, e.seqno + 1), d);
    assert Stamped([d], e.session, e.epoch, e.frame, e.seqno) == [ev];
    AppendPositioned(e.log, e.session, e.epoch, e.frame, e.seqno, d);
    AppendSealed(e.log, ev);
    AppendDated(e.log, e.epoch, ev);
    if timed {
      AppendTimed(e.log, ev, at);
    }
    assert ProperLog(e.log + [ev]) by { EmittableIsProper(d, at); }
  }

  lemma EmittableIsProper(d: Draft, at: Time)
    requires Emittable(d, at)
    ensures ProperDelta(d)
  {
  }

  /** A list of events none of which is a residual. */
  lemma {:induction false} EmitMany(e: Engine, ds: seq<Draft>, at: Time, timed: bool)
    requires InFrame(e, at, timed) && Unsealed(e.log, e.frame)
    requires forall d :: d in ds ==> Emittable(d, at) && !d.typ.SamplingResidual?
    ensures InFrame(Emit(e, ds), at, timed) && Unsealed(Emit(e, ds).log, e.frame)
  {
    hide InFrame, Unsealed, Emittable;
    if ds == [] {
      assert Stamped([], e.session, e.epoch, e.frame, e.seqno) == [] && e.log + [] == e.log;
      assert Emit(e, ds) == e;
    } else {
      var front, d := ds[..|ds| - 1], ds[|ds| - 1];
      assert ds == front + [d];
      EmitMany(e, front, at, timed);
      EmitTwice(e, front, [d]);
      EmitOne(Emit(e, front), d, at, timed);
    }
  }

  // ---------------------------------------------------------------------------------------------
  // The loops
  // ---------------------------------------------------------------------------------------------

  lemma {:induction false} ConnStepsStayInFrame(e: Engine, conns: seq<Snapshot>, at: Time, mode: Mode, timed: bool)
    requires Inner(e) && InFrame(e, at, timed) && Unsealed(e.log, e.frame) && forall c :: c in conns ==> SaneSnapshot(c)
    ensures InFrame(ConnSteps(e, conns, at, mode), at, timed) && Unsealed(ConnSteps(e, conns, at, mode).log, e.frame)
  {
    hide Inner, InFrame, Unsealed, SaneSnapshot, Decide, TombsAfter, Emittable;
    if conns != [] {
      var front, c := conns[..|conns| - 1], conns[|conns| - 1];
      assert c in conns;
      var s := ConnSteps(e, front, at, mode);
      ConnStepsStayInFrame(e, front, at, mode, timed);
      ConnStepsKeepInner(e, front, at, mode);
      ConnStepsKeepScalars(e, front, at, mode);
      SoundDecision(s, c, at, mode);
      SoundIsEmittable(Decide(s, c, at, mode), c.id, at);
      EmitMany(s, Decide(s, c, at, mode).drafts, at, timed);
      InFrameIgnoresState(Emit(s, Decide(s, c, at, mode).drafts), ConnStep(s, c, at, mode), at, timed);
    }
  }

  lemma SoundIsEmittable(d: Decision, id: ConnId, at: Time)
    requires Only(d.drafts, id) && AllAt(d.drafts, at) && ProperTraffic(d.drafts)
    ensures forall x :: x in d.drafts ==> Emittable(x, at) && !x.typ.SamplingResidual?
  {
  }

  lemma InFrameIgnoresState(a: Engine, b: Engine, at: Time, timed: bool)
    requires a.log == b.log && a.session == b.session && a.epoch == b.epoch && a.frame == b.frame && a.seqno == b.seqno
    ensures InFrame(a, at, timed) <==> InFrame(b, at, timed)
  {
  }

  lemma DisappearanceIsEmittable(id: ConnId, s: Active, at: Time)
    ensures Emittable(DisappearedDraft(id, s, at), at) && !DisappearedDraft(id, s, at).typ.SamplingResidual?
  {
  }

  lemma {:induction false} CloseAllStaysInFrame(e: Engine, ids: seq<ConnId>, at: Time, timed: bool)
    requires InFrame(e, at, timed) && Unsealed(e.log, e.frame)
    ensures InFrame(CloseAll(e, ids, at), at, timed) && Unsealed(CloseAll(e, ids, at).log, e.frame)
  {
    hide InFrame, Unsealed, Bury, Emittable, DisappearedDraft;
    if ids != [] {
      var front, id := ids[..|ids| - 1], ids[|ids| - 1];
      var s := CloseAll(e, front, at);
      CloseAllStaysInFrame(e, front, at, timed);
      CloseAllKeepsScalars(e, front, at);
      if id in s.active {
        var d := DisappearedDraft(id, s.active[id], at);
        DisappearanceIsEmittable(id, s.active[id], at);
        EmitMany(s, [d], at, timed);
        InFrameIgnoresState(Emit(s, [d]), CloseOne(s, id, at), at, timed);
      }
    }
  }

  lemma CloseMissingStaysInFrame(e: Engine, conns: seq<Snapshot>, at: Time, timed: bool)
    requires InFrame(e, at, timed) && Unsealed(e.log, e.frame)
    ensures InFrame(CloseMissing(e, conns, at), at, timed) && Unsealed(CloseMissing(e, conns, at).log, e.frame)
  {
    hide InFrame, Unsealed, CloseAll;
    CloseAllStaysInFrame(e, Ascending(e.active.Keys - IdsOf(conns)), at, timed);
  }

  // ---------------------------------------------------------------------------------------------
  // Frames
  // ---------------------------------------------------------------------------------------------

  lemma FrameDraftsEmittable(at: Time, start: Time)
    ensures forall details :: Emittable(GapClosedDraft(start, at, details), at)
                              && !GapClosedDraft(start, at, details).typ.SamplingResidual?
                              && GapClosedDraft(start, at, details).conn.None?
    ensures Emittable(GapOpenedDraft(start, at, UNREACHABLE), at)
            && !GapOpenedDraft(start, at, UNREACHABLE).typ.SamplingResidual?
    ensures Emittable(Plain(CounterEpochBreak, at), at) && !Plain(CounterEpochBreak, at).typ.SamplingResidual?
    ensures forall kind, global, unique, residual ::
              Emittable(ResidualDraft(kind, global, unique, residual, at), at)
                  && ResidualDraft(kind, global, unique, residual, at).conn.None?
  {
  }

  lemma BootStaysInFrame(e: Engine, f: Frame, timed: bool)
    requires Inner(e) && InFrame(e, f.at, timed) && Unsealed(e.log, e.frame) && SaneItem(FrameItem(f))
    ensures InFrame(BootFrame(e, f), f.at, timed) && BootFrame(e, f).frame == e.frame
            && BootFrame(e, f).lastHealthy == f.at
    ensures BootFrame(e, f).session == e.session
  {
    hide Inner, InFrame, Unsealed, Clear, SaneSnapshot, Emittable, Plain, ConnSteps;
    var e0 := e.(active := map[], tombs := Clear(e.tombs));
    EmptyStateIsInner(e);
    InFrameIgnoresState(e, e0, f.at, timed);
    var e1 := ConnSteps(e0, f.conns, f.at, Booting);
    ConnStepsStayInFrame(e0, f.conns, f.at, Booting, timed);
    ConnStepsKeepScalars(e0, f.conns, f.at, Booting);
    var e2 := e1.(total := f.total, lastHealthy := f.at);
    InFrameIgnoresState(e1, e2, f.at, timed);
    FrameDraftsEmittable(f.at, e2.created);
    UnobservedStaysInFrame(e2, e2.created, f.at, timed);
    var e3 := if e2.healthy then e2 else UnobservedGap(e2, e2.created, f.at);
    var e4 := e3.(healthy := true, bootstrap := false);
    InFrameIgnoresState(e3, e4, f.at, timed);
    EmitOne(e4, ResidualDraft(BootstrapFrame, NO_BYTES, NO_BYTES, NO_BYTES, f.at), f.at, timed);
  }

  lemma UnobservedStaysInFrame(e: Engine, start: Time, at: Time, timed: bool)
    requires InFrame(e, at, timed) && Unsealed(e.log, e.frame)
    ensures InFrame(UnobservedGap(e, start, at), at, timed) && Unsealed(UnobservedGap(e, start, at).log, e.frame)
    ensures SameScalars(e, UnobservedGap(e, start, at).(unobserved := e.unobserved))
  {
    hide InFrame, Unsealed, Emittable, Plain, GapClosedDraft, GapOpenedDraft;
    var ds := [GapOpenedDraft(start, at, UNREACHABLE), GapClosedDraft(start, at, GapReason(UNREACHABLE))];
    FrameDraftsEmittable(at, start);
    EmitMany(e, ds, at, timed);
    InFrameIgnoresState(Emit(e, ds), Emit(e, ds).(unobserved := true), at, timed);
  }

  lemma RecoverStaysInFrame(e: Engine, f: Frame, timed: bool)
    requires Inner(e) && GapIs(e, true) && InFrame(e, f.at, timed) && Unsealed(e.log, e.frame) && SaneItem(FrameItem(f))
    ensures InFrame(RecoverFrame(e, f), f.at, timed) && RecoverFrame(e, f).frame == e.frame
            && RecoverFrame(e, f).lastHealthy == f.at
    ensures RecoverFrame(e, f).session == e.session
  {
    hide Inner, InFrame, Unsealed, SaneSnapshot, Emittable, Plain, ConnSteps, CloseMissing, GapAfter, Bodies,
         GapClosedDraft, Contributions;
    var global := Since(f, e.total);
    var closed := GapClosedDraft(e.gapStart, f.at, GapDelta(global));
    FrameDraftsEmittable(f.at, e.gapStart);
    GapDraftsAreGlobal(e.gapStart, f.at);
    EmitOne(e, closed, f.at, timed);
    GlobalKeepsInner(e, closed);
    var e1 := Emit(e, [closed]);
    var mode := Recovering(e.gapStart);
    var e2 := ConnSteps(e1, f.conns, f.at, mode);
    ConnStepsStayInFrame(e1, f.conns, f.at, mode, timed);
    ConnStepsKeepInner(e1, f.conns, f.at, mode);
    ConnStepsKeepScalars(e1, f.conns, f.at, mode);
    CloseMissingStaysInFrame(e2, f.conns, f.at, timed);
    CloseMissingKeeps(e2, f.conns, f.at);
    var e3 := CloseMissing(e2, f.conns, f.at);
    var e4 := e3.(total := f.total, lastHealthy := f.at, gapOpen := false);
    InFrameIgnoresState(e3, e4, f.at, timed);
    EmitOne(e4, ResidualDraft(RecoveryFrame, global, NO_BYTES, NO_BYTES, f.at), f.at, timed);
  }

  lemma ObserveStaysInFrame(e: Engine, f: Frame, timed: bool)
    requires Inner(e) && InFrame(e, f.at, timed) && Unsealed(e.log, e.frame) && SaneItem(FrameItem(f))
    ensures InFrame(ObserveFrame(e, f), f.at, timed) && ObserveFrame(e, f).frame == e.frame
            && ObserveFrame(e, f).lastHealthy == f.at
    ensures ObserveFrame(e, f).session == e.session
  {
    hide Inner, InFrame, Unsealed, SaneSnapshot, Emittable, Plain, ConnSteps, CloseMissing, ConfirmedIn, UniqueObserved,
         GapAfter, Bodies;
    var mode := Steady(ConfirmedIn(e, f.conns));
    var e1 := ConnSteps(e, f.conns, f.at, mode);
    ConnStepsStayInFrame(e, f.conns, f.at, mode, timed);
    ConnStepsKeepInner(e, f.conns, f.at, mode);
    ConnStepsKeepScalars(e, f.conns, f.at, mode);
    CloseMissingStaysInFrame(e1, f.conns, f.at, timed);
    CloseMissingKeeps(e1, f.conns, f.at);
    var e2 := CloseMissing(e1, f.conns, f.at);
    var global, unique := Since(f, e.total), UniqueObserved(e, f.conns, f.at, mode);
    var d := ResidualDraft(SteadyFrame, global, unique, Bytes(global.up - unique.up, global.down - unique.down), f.at);
    FrameDraftsEmittable(f.at, 0);
    EmitOne(e2, d, f.at, timed);
    InFrameIgnoresState(Emit(e2, [d]), Emit(e2, [d]).(total := f.total, lastHealthy := f.at), f.at, timed);
  }

  lemma BeginStaysInFrame(e: Engine, at: Time, timed: bool)
    requires InFrame(e, e.lastHealthy, timed)
    ensures InFrame(BeginFrame(e), at, timed && e.lastHealthy <= at) && Unsealed(BeginFrame(e).log, BeginFrame(e).frame)
  {
    if timed && e.lastHealthy <= at {
      TimedLater(e.log, e.lastHealthy, at);
    }
  }

  lemma TimedLater(log: seq<Event>, t: Time, at: Time)
    requires Timed(log, t) && t <= at
    ensures Timed(log, at)
  {
    forall session, epoch ensures Evidence.FrameTime(log, session, epoch) <= at {
      assert Evidence.FrameTime(log, session, epoch) <= t;
    }
  }

  lemma BreakStaysInFrame(e: Engine, at: Time, timed: bool)
    requires InFrame(e, at, timed)
    requires e.log != [] && e.log[|e.log| - 1].body.typ.CounterEpochBreak?
    ensures InFrame(BreakEpoch(e), at, timed)
  {
    hide Sealed, Timed, ProperLog;
    forall i | 0 <= i < |e.log| ensures !NoBreak(e.log, i, |e.log|) {
      assert e.log[|e.log| - 1].body.typ.CounterEpochBreak?;
    }
  }

  lemma EndsInBreak(e: Engine, ds: seq<Draft>, at: Time)
    ensures var log := Emit(e, ds + [Plain(CounterEpochBreak, at)]).log;
            log != [] && log[|log| - 1].body.typ.CounterEpochBreak?
  {
  }

  lemma ProcessFrameStaysInFrame(e: Engine, f: Frame, timed: bool)
    requires EngineOk(e) && InFrame(e, e.lastHealthy, timed) && SaneItem(FrameItem(f))
    ensures var e' := ProcessFrame(e, f);
            InFrame(e', f.at, timed && e.lastHealthy <= f.at) && e'.lastHealthy == f.at && e'.session == e.session
  {
    hide Inner, InFrame, Unsealed, SaneSnapshot, Emittable, Plain, GapClosedDraft, BootFrame, RecoverFrame,
         ObserveFrame, BreakEpoch, GapAfter, Bodies;
    var b := BeginFrame(e);
    InnerIgnoresFlags(e, b);
    BeginStaysInFrame(e, f.at, timed);
    var timed' := timed && e.lastHealthy <= f.at;
    if e.gapOpen {
      if TotalsRegress(e, f) {
        BrokenGapStaysInFrame(b, f, timed');
      } else {
        RecoverStaysInFrame(b, f, timed');
      }
    } else if !e.bootstrap && TotalsRegress(e, f) {
      BrokenSteadyStaysInFrame(b, f, timed');
    } else if e.bootstrap {
      BootStaysInFrame(b, f, timed');
    } else {
      ObserveStaysInFrame(b, f, timed');
    }
  }

  lemma BrokenSteadyStaysInFrame(b: Engine, f: Frame, timed: bool)
    requires Inner(b) && InFrame(b, f.at, timed) && Unsealed(b.log, b.frame) && SaneItem(FrameItem(f))
    ensures var e' := BootFrame(BreakEpoch(Emit(b, [Plain(CounterEpochBreak, f.at)])), f);
            InFrame(e', f.at, timed) && e'.lastHealthy == f.at && e'.session == b.session
  {
    hide Inner, InFrame, Unsealed, SaneSnapshot, Emittable, Plain, BootFrame;
    FrameDraftsEmittable(f.at, 0);
    EmitMany(b, [Plain(CounterEpochBreak, f.at)], f.at, timed);
    BreakKeepsInner(b, f.at);
    EndsInBreak(b, [], f.at);
    assert [] + [Plain(CounterEpochBreak, f.at)] == [Plain(CounterEpochBreak, f.at)];
    BreakStaysInFrame(Emit(b, [Plain(CounterEpochBreak, f.at)]), f.at, timed);
    BootStaysInFrame(BreakEpoch(Emit(b, [Plain(CounterEpochBreak, f.at)])), f, timed);
  }

  lemma BrokenGapStaysInFrame(b: Engine, f: Frame, timed: bool)
    requires Inner(b) && GapIs(b, true) && InFrame(b, f.at, timed) && Unsealed(b.log, b.frame) && SaneItem(FrameItem(f))
    ensures var e' := BootFrame(BreakEpoch(Emit(b,
                                                [GapClosedDraft(b.gapStart, f.at, GapDeltaUnavailable),
                                                 Plain(CounterEpochBreak, f.at)]))
                                  .(gapOpen := false), f);
            InFrame(e', f.at, timed) && e'.lastHealthy == f.at && e'.session == b.session
  {
    hide Inner, InFrame, Unsealed, SaneSnapshot, Emittable, Plain, GapClosedDraft, BootFrame, GapAfter, Bodies,
         Contributions;
    var closed, broken := GapClosedDraft(b.gapStart, f.at, GapDeltaUnavailable), Plain(CounterEpochBreak, f.at);
    FrameDraftsEmittable(f.at, b.gapStart);
    EmitMany(b, [closed, broken], f.at, timed);
    GapDraftsAreGlobal(b.gapStart, f.at);
    GlobalKeepsInner(b, closed);
    BreakKeepsInner(Emit(b, [closed]), f.at);
    EmitTwice(b, [closed], [broken]);
    assert [closed] + [broken] == [closed, broken];
    var b2 := BreakEpoch(Emit(b, [closed, broken]));
    EndsInBreak(b, [closed], f.at);
    BreakStaysInFrame(Emit(b, [closed, broken]), f.at, timed);
    InnerIgnoresFlags(b2, b2.(gapOpen := false));
    InFrameIgnoresState(b2, b2.(gapOpen := false), f.at, timed);
    BootStaysInFrame(b2.(gapOpen := false), f, timed);
  }

  // ---------------------------------------------------------------------------------------------
  // Items and runs
  // ---------------------------------------------------------------------------------------------

  lemma GapItemStaysInFrame(e: Engine, at: Time, reason: string, timed: bool)
    requires InFrame(e, e.lastHealthy, timed)
    ensures InFrame(OpenGap(e, at, reason), e.lastHealthy, timed)
  {
    hide InFrame;
    if e.healthy && !e.gapOpen {
      var start := if e.lastHealthy == ZERO_TIME then at else e.lastHealthy;
      var e1 := e.(gapOpen := true, gapStart := start);
      InFrameIgnoresState(e, e1, e.lastHealthy, timed);
      EmitOne(e1, GapOpenedDraft(start, at, reason), e.lastHealthy, timed);
    }
  }

  lemma ShutdownStaysInFrame(e: Engine, start: Time, at: Time, timed: bool)
    requires InFrame(e, e.lastHealthy, timed)
    ensures InFrame(UnobservedGap(e, start, at), e.lastHealthy, timed)
  {
    hide InFrame;
    var first, second := GapOpenedDraft(start, at, UNREACHABLE), GapClosedDraft(start, at, GapReason(UNREACHABLE));
    EmitOne(e, first, e.lastHealthy, timed);
    EmitOne(Emit(e, [first]), second, e.lastHealthy, timed);
    EmitTwice(e, [first], [second]);
    assert [first] + [second] == [first, second];
    InFrameIgnoresState(Emit(e, [first, second]), Emit(e, [first, second]).(unobserved := true), e.lastHealthy, timed);
  }

  /** Frames in time order, after an instant. */
  function LastFrameTime(since: Time, items: seq<Item>): Time {
    if items == [] then since
    else
      var item := items[|items| - 1];
      if item.FrameItem? then item.frame.at else LastFrameTime(since, items[..|items| - 1])
  }

  predicate TimesAscend(since: Time, items: seq<Item>) {
    items == []
    || var front, item := items[..|items| - 1], items[|items| - 1];
       TimesAscend(since, front) && (item.FrameItem? ==> LastFrameTime(since, front) <= item.frame.at)
  }

  lemma ProcessStaysInFrame(e: Engine, item: Item, timed: bool)
    requires EngineOk(e) && InFrame(e, e.lastHealthy, timed) && SaneItem(item)
    ensures var e' := Process(e, item);
            && InFrame(e', e'.lastHealthy, timed && (item.FrameItem? ==> e.lastHealthy <= item.frame.at))
            && e'.lastHealthy == (if item.FrameItem? then item.frame.at else e.lastHealthy)
            && e'.session == e.session
  {
    hide EngineOk, InFrame, SaneItem, ProcessFrame, UnobservedGap, OpenGap, Emit;
    match item
    case FrameItem(f) => ProcessFrameStaysInFrame(e, f, timed);
    case GapItem(at, reason) =>
      GapItemStaysInFrame(e, at, reason, timed);
      OpenGapKeepsTimes(e, at, reason);
    case HealthItem(at, issue) =>
      EmitOne(e, Plain(CollectorHealth, at).(details := HealthIssue(ReportedIssue(issue))), e.lastHealthy, timed);
      EmitKeepsTimes(e, [Plain(CollectorHealth, at).(details := HealthIssue(ReportedIssue(issue)))]);
    case ShutdownItem(at) =>
      ShutdownStaysInFrame(e, e.created, at, timed);
      UnobservedKeepsTimes(e, at);
  }

  lemma EmitKeepsTimes(e: Engine, ds: seq<Draft>)
    ensures Emit(e, ds).lastHealthy == e.lastHealthy && Emit(e, ds).session == e.session
  {
  }

  lemma OpenGapKeepsTimes(e: Engine, at: Time, reason: string)
    ensures OpenGap(e, at, reason).lastHealthy == e.lastHealthy && OpenGap(e, at, reason).session == e.session
  {
  }

  lemma UnobservedKeepsTimes(e: Engine, at: Time)
    ensures UnobservedGap(e, e.created, at).lastHealthy == e.lastHealthy
            && UnobservedGap(e, e.created, at).session == e.session
  {
  }

  lemma {:induction false} RunStaysInFrame(e: Engine, items: seq<Item>, timed: bool)
    requires EngineOk(e) && InFrame(e, e.lastHealthy, timed) && SaneItems(items)
    ensures var e' := RunFrom(e, items);
            && InFrame(e', e'.lastHealthy, timed && TimesAscend(e.lastHealthy, items))
            && e'.lastHealthy == LastFrameTime(e.lastHealthy, items) && e'.session == e.session
  {
    hide EngineOk, InFrame, SaneItem, Process;
    if items != [] {
      var front, item := items[..|items| - 1], items[|items| - 1];
      assert item in items;
      RunKeepsOk(e, front);
      RunStaysInFrame(e, front, timed);
      ProcessStaysInFrame(RunFrom(e, front), item, timed && TimesAscend(e.lastHealthy, front));
    }
  }

  lemma NewEngineInFrame(session: SessionId, created: Time)
    ensures InFrame(NewEngine(session, created), ZERO_TIME, true)
  {
  }

  /** Every run emits strictly increasing (epoch, frame, event) positions of its own session, never puts
      a connection event behind the residual that seals its frame, never reports negative traffic, and
      carries traffic on New and Delta events only. */
  lemma RunsAreOrdered(session: SessionId, created: Time, items: seq<Item>)
    requires SaneItems(items)
    ensures var e := RunFrom(NewEngine(session, created), items);
            && Positioned(e.log, session, e.epoch, e.frame, e.seqno) && Sealed(e.log) && ProperLog(e.log)
            && Dated(e.log, e.epoch)
  {
    NewEngineOk(session, created);
    NewEngineInFrame(session, created);
    RunStaysInFrame(NewEngine(session, created), items, true);
  }

  /** When frames arrive in time order the log is a journal incremental accounting can rely on. */
  lemma RunsAreSound(session: SessionId, created: Time, items: seq<Item>)
    requires SaneItems(items) && TimesAscend(ZERO_TIME, items)
    ensures Accounting.Sound(RunFrom(NewEngine(session, created), items).log)
  {
    NewEngineOk(session, created);
    NewEngineInFrame(session, created);
    RunStaysInFrame(NewEngine(session, created), items, true);
  }
}
