/** The sparse evidence bound: how long a live connection may go without durable evidence, and how
    dense that evidence may be. */
module SparseEvidence {
  import opened Types
  import opened EventLog
  import opened Decisions
  import opened Tombstones
  import opened Engine
  import opened EngineSafety
  import opened EngineRuns
  import EngineLog
  import Evidence

  // ---------------------------------------------------------------------------------------------
  // Live connections after a frame
  // ---------------------------------------------------------------------------------------------

  lemma {:induction false} ConnStepsAreFresh(e: Engine, conns: seq<Snapshot>, at: Time, mode: Mode)
    requires Inner(e) && DistinctIds(conns) && forall c :: c in conns ==> SaneSnapshot(c)
    ensures var e' := ConnSteps(e, conns, at, mode);
            && e'.active.Keys == e.active.Keys + IdsOf(conns)
            && forall id :: id in IdsOf(conns) ==> at - e'.active[id].evidence < CHECKPOINT_INTERVAL
  {
    hide Inner, SaneSnapshot, Decide, TombsAfter, Emit;
    if conns != [] {
      var front, c := conns[..|conns| - 1], conns[|conns| - 1];
      assert c in conns && conns == front + [c];
      var s := ConnSteps(e, front, at, mode);
      ConnStepsAreFresh(e, front, at, mode);
      ConnStepsKeepInner(e, front, at, mode);
      SoundDecision(s, c, at, mode);
      StepActive(s, c, at, mode);
      assert IdsOf(conns) == IdsOf(front) + {c.id};
    }
  }

  lemma StepActive(e: Engine, c: Snapshot, at: Time, mode: Mode)
    ensures ConnStep(e, c, at, mode).active == e.active[c.id := Decide(e, c, at, mode).state]
  {
    hide Decide;
  }

  lemma {:induction false} AscendingMembers(s: set<ConnId>)
    ensures forall id :: id in Ascending(s) <==> id in s
    decreases s
  {
    if s != {} {
      MinExists(s);
      var m :| IsLeast(s, m) && Ascending(s) == [m] + Ascending(s - {m});
      AscendingMembers(s - {m});
    }
  }

  lemma {:induction false} CloseAllRemoves(e: Engine, ids: seq<ConnId>, at: Time)
    ensures forall id :: id in CloseAll(e, ids, at).active <==> id in e.active && id !in ids
    ensures forall id :: id in CloseAll(e, ids, at).active ==> CloseAll(e, ids, at).active[id] == e.active[id]
  {
    hide Bury, Emit;
    if ids != [] {
      var front, id := ids[..|ids| - 1], ids[|ids| - 1];
      assert ids == front + [id];
      CloseAllRemoves(e, front, at);
      CloseActive(CloseAll(e, front, at), id, at);
    }
  }

  lemma CloseActive(e: Engine, id: ConnId, at: Time)
    ensures CloseOne(e, id, at).active == e.active - {id}
  {
    hide Bury;
  }

  lemma CloseMissingLeaves(e: Engine, conns: seq<Snapshot>, at: Time)
    requires IdsOf(conns) <= e.active.Keys
    ensures CloseMissing(e, conns, at).active.Keys == IdsOf(conns)
    ensures forall id :: id in IdsOf(conns) ==> CloseMissing(e, conns, at).active[id] == e.active[id]
  {
    hide CloseAll, Ascending;
    AscendingMembers(e.active.Keys - IdsOf(conns));
    CloseAllRemoves(e, Ascending(e.active.Keys - IdsOf(conns)), at);
  }

  /** The frame's connections are live, and only they, each with evidence less than 30 s old. */
  ghost predicate Fresh(e: Engine, f: Frame) {
    && e.active.Keys == IdsOf(f.conns)
    && forall id :: id in e.active ==> f.at - e.active[id].evidence < 30 * SECOND
  }

  lemma BootIsFresh(e: Engine, f: Frame)
    requires Inner(e) && SaneItem(FrameItem(f))
    ensures Fresh(BootFrame(e, f), f)
  {
    hide Inner, ConnSteps, Clear, UnobservedGap, SaneSnapshot, Emit;
    var e0 := e.(active := map[], tombs := Clear(e.tombs));
    EmptyStateIsInner(e);
    ConnStepsAreFresh(e0, f.conns, f.at, Booting);
    var e1 := ConnSteps(e0, f.conns, f.at, Booting).(total := f.total, lastHealthy := f.at);
    UnobservedKeepsActive(e1, e1.created, f.at);
    var e3 := if e1.healthy then e1 else UnobservedGap(e1, e1.created, f.at);
    EmitKeepsActive(e3.(healthy := true, bootstrap := false),
                    [ResidualDraft(BootstrapFrame, NO_BYTES, NO_BYTES, NO_BYTES, f.at)]);
  }

  lemma UnobservedKeepsActive(e: Engine, start: Time, end: Time)
    ensures UnobservedGap(e, start, end).active == e.active
  {
  }

  lemma EmitKeepsActive(e: Engine, ds: seq<Draft>)
    ensures Emit(e, ds).active == e.active
  {
  }

  lemma RecoverIsFresh(e: Engine, f: Frame)
    requires Inner(e) && GapIs(e, true) && SaneItem(FrameItem(f))
    ensures Fresh(RecoverFrame(e, f), f)
  {
    hide Inner, ConnSteps, CloseMissing, SaneSnapshot, Emit, GapClosedDraft, Contribution, Contributions, GapAfter,
         Bodies;
    var closed := GapClosedDraft(e.gapStart, f.at, GapDelta(Since(f, e.total)));
    GapDraftsAreGlobal(e.gapStart, f.at);
    GlobalKeepsInner(e, closed);
    var e1 := Emit(e, [closed]);
    ConnStepsAreFresh(e1, f.conns, f.at, Recovering(e.gapStart));
    var e2 := ConnSteps(e1, f.conns, f.at, Recovering(e.gapStart));
    CloseMissingLeaves(e2, f.conns, f.at);
    var e3 := CloseMissing(e2, f.conns, f.at).(total := f.total, lastHealthy := f.at, gapOpen := false);
    EmitKeepsActive(e3, [ResidualDraft(RecoveryFrame, Since(f, e.total), NO_BYTES, NO_BYTES, f.at)]);
  }

  lemma ObserveIsFresh(e: Engine, f: Frame)
    requires Inner(e) && SaneItem(FrameItem(f))
    ensures Fresh(ObserveFrame(e, f), f)
  {
    hide Inner, ConnSteps, CloseMissing, SaneSnapshot, Emit, ConfirmedIn, UniqueObserved;
    var mode := Steady(ConfirmedIn(e, f.conns));
    ConnStepsAreFresh(e, f.conns, f.at, mode);
    var e1 := ConnSteps(e, f.conns, f.at, mode);
    CloseMissingLeaves(e1, f.conns, f.at);
    var e2 := CloseMissing(e1, f.conns, f.at);
    var global, unique := Since(f, e.total), UniqueObserved(e, f.conns, f.at, mode);
    EmitKeepsActive(e2, [ResidualDraft(SteadyFrame, global, unique,
                                       Bytes(global.up - unique.up, global.down - unique.down), f.at)]);
  }

  /** After every processed frame exactly the frame's connections are live, and each has durable
      evidence less than 30 s older than the frame. */
  lemma EvidenceIsFresh(e: Engine, f: Frame)
    requires EngineOk(e) && SaneItem(FrameItem(f))
    ensures Fresh(ProcessFrame(e, f), f)
  {
    hide Inner, BootFrame, RecoverFrame, ObserveFrame, GapAfter, Bodies, Contributions, SaneSnapshot, Plain, BreakEpoch,
         GapClosedDraft;
    var b := BeginFrame(e);
    InnerIgnoresFlags(e, b);
    if e.gapOpen {
      if TotalsRegress(e, f) {
        var closed, broken := GapClosedDraft(b.gapStart, f.at, GapDeltaUnavailable), Plain(CounterEpochBreak, f.at);
        GapDraftsAreGlobal(b.gapStart, f.at);
        GlobalKeepsInner(b, closed);
        BreakKeepsInner(Emit(b, [closed]), f.at);
        EmitTwice(b, [closed], [broken]);
        assert [closed] + [broken] == [closed, broken];
        var b2 := BreakEpoch(Emit(b, [closed, broken]));
        InnerIgnoresFlags(b2, b2.(gapOpen := false));
        BootIsFresh(b2.(gapOpen := false), f);
      } else {
        RecoverIsFresh(b, f);
      }
    } else if !e.bootstrap && TotalsRegress(e, f) {
      BreakKeepsInner(b, f.at);
      BootIsFresh(BreakEpoch(Emit(b, [Plain(CounterEpochBreak, f.at)])), f);
    } else if e.bootstrap {
      BootIsFresh(b, f);
    } else {
      ObserveIsFresh(b, f);
    }
  }

  // ---------------------------------------------------------------------------------------------
  // Checkpoints are rare
  // ---------------------------------------------------------------------------------------------

  predicate Unbroken(ds: seq<Draft>, i: nat, j: nat)
    requires j <= |ds|
  {
    forall k :: i <= k < j ==> !ds[k].typ.CounterEpochBreak?
  }

  /** The connection events of one epoch come in time order. */
  ghost predicate InOrder(ds: seq<Draft>) {
    forall i, j :: 0 <= i < j < |ds| && ds[i].conn.Some? && ds[j].conn.Some? && Unbroken(ds, i, j) ==>
        ds[i].at <= ds[j].at
  }

  predicate IsEvidence(d: Draft, id: ConnId) {
    d.conn == Some(id) && !d.typ.ConnectionDisappeared? && !d.typ.CounterEpochBreak?
  }

  /** The latest evidence is at least as late as any one event of the same epoch. */
  lemma {:induction false} LatestEvidence(ds: seq<Draft>, i: nat, j: nat, id: ConnId)
    requires i < j <= |ds| && InOrder(ds) && IsEvidence(ds[i], id) && Unbroken(ds, i, j)
    ensures TrackOf(ds[..j], id).evidence >= ds[i].at
    decreases j
  {
    assert ds[..j][..|ds[..j]| - 1] == ds[..j - 1];
    if i < j - 1 {
      LatestEvidence(ds, i, j - 1, id);
      assert Unbroken(ds, i, j - 1);
    }
  }

  /** In a legal, ordered log a checkpoint is emitted only 30 s or more after any earlier evidence of the
      connection in the epoch. */
  lemma CheckpointsAreSparse(ds: seq<Draft>, i: nat, j: nat, id: ConnId)
    requires AllLegal(ds) && InOrder(ds) && i < j < |ds| && Unbroken(ds, i, j)
    requires IsEvidence(ds[i], id) && ds[j].typ.PresenceCheckpoint? && ds[j].conn == Some(id)
    ensures ds[j].at - ds[i].at >= CHECKPOINT_INTERVAL
  {
    hide AllLegal, TrackFrom;
    LegalAt(ds, j);
    LatestEvidence(ds, i, j, id);
  }

  /** The frame time of a group is at least as late as any of its frame evidence. */
  lemma {:induction false} FrameTimeCovers(evs: seq<Event>, i: nat)
    requires Evidence.FrameOrdered(evs) && i < |evs| && Evidence.IsFrameEvidence(evs[i])
    ensures evs[i].body.at <= Evidence.FrameTime(evs, evs[i].pos.session, evs[i].pos.epoch)
  {
    if i < |evs| - 1 {
      FrameTimeCovers(evs[..|evs| - 1], i);
    }
  }

  lemma {:induction false} FramesAscend(evs: seq<Event>, i: nat, j: nat)
    requires Evidence.FrameOrdered(evs) && i < j < |evs|
    requires Evidence.IsFrameEvidence(evs[i]) && Evidence.IsFrameEvidence(evs[j])
    requires evs[i].pos.session == evs[j].pos.session && evs[i].pos.epoch == evs[j].pos.epoch
    ensures evs[i].body.at <= evs[j].body.at
  {
    if j < |evs| - 1 {
      FramesAscend(evs[..|evs| - 1], i, j);
    } else {
      FrameTimeCovers(evs[..|evs| - 1], i);
    }
  }

  lemma LogIsInOrder(log: seq<Event>, session: SessionId, epoch: nat)
    requires Evidence.FrameOrdered(log) && EngineLog.Dated(log, epoch)
    requires forall ev :: ev in log ==> ev.pos.session == session
    ensures InOrder(Bodies(log))
  {
    hide Evidence.FrameOrdered;
    var ds := Bodies(log);
    forall i, j | 0 <= i < j < |ds| && ds[i].conn.Some? && ds[j].conn.Some? && Unbroken(ds, i, j)
      ensures ds[i].at <= ds[j].at
    {
      assert log[i] in log && log[j] in log;
      assert forall k :: i <= k < j ==> log[k].body == ds[k];
      assert EngineLog.NoBreak(log, i, j);
      FramesAscend(log, i, j);
    }
  }

  /** In every run with frames in time order, a checkpoint of a connection comes 30 s or more after any
      earlier evidence of it in the same counter epoch: two checkpoints are at least that far apart. */
  lemma RunCheckpointsAreSparse(session: SessionId, created: Time, items: seq<Item>, i: nat, j: nat, id: ConnId)
    requires SaneItems(items) && EngineLog.TimesAscend(ZERO_TIME, items)
    requires i < j < |RunFrom(NewEngine(session, created), items).log|
    requires var log := RunFrom(NewEngine(session, created), items).log;
             && IsEvidence(log[i].body, id) && EngineLog.NoBreak(log, i, j)
             && log[j].body.typ.PresenceCheckpoint? && log[j].body.conn == Some(id)
    ensures var log := RunFrom(NewEngine(session, created), items).log;
            log[j].body.at - log[i].body.at >= 30 * SECOND
  {
    hide AllLegal, InOrder, RunFrom, GapAfter, Evidence.FrameOrdered, EngineLog.Sealed, EngineLog.Dated,
         EngineLog.ProperLog;
    var e := RunFrom(NewEngine(session, created), items);
    RunsAreLegal(session, created, items);
    EngineLog.RunsAreOrdered(session, created, items);
    EngineLog.RunsAreSound(session, created, items);
    LogIsInOrder(e.log, session, e.epoch);
    assert forall k :: 0 <= k < |e.log| ==> Bodies(e.log)[k] == e.log[k].body;
    CheckpointsAreSparse(Bodies(e.log), i, j, id);
  }

  // ---------------------------------------------------------------------------------------------
  // Never traffic and a checkpoint together
  // ---------------------------------------------------------------------------------------------

  predicate Dense(d: Draft) {
    d.typ.ConnectionDelta? || d.typ.PresenceCheckpoint?
  }

  /** In `frame`, no connection has both a Delta and a checkpoint, and only `ids` have either. */
  ghost predicate Apart(log: seq<Event>, frame: nat, ids: set<ConnId>) {
    && (forall ev :: ev in log && ev.pos.frame == frame && Dense(ev.body) ==>
        ev.body.conn.Some? && ev.body.conn.value in ids)
    && (forall a, b :: (a in log && b in log && a.pos.frame == frame && b.pos.frame == frame
                        && a.body.typ.ConnectionDelta? && b.body.typ.PresenceCheckpoint?) ==>
                            a.body.conn != b.body.conn)
  }

  lemma ApartStep(e: Engine, ds: seq<Draft>, ids: set<ConnId>, id: ConnId)
    requires Apart(e.log, e.frame, ids) && id !in ids && Only(ds, id) && NotBoth(ds)
    ensures Apart(Emit(e, ds).log, e.frame, ids + {id})
  {
    var more := Stamped(ds, e.session, e.epoch, e.frame, e.seqno);
    forall ev | ev in more ensures ev.body.conn == Some(id) {
      var i :| 0 <= i < |more| && more[i] == ev;
    }
    assert forall i, j :: 0 <= i < |ds| && 0 <= j < |ds| ==>
             !(ds[i].typ.ConnectionDelta? && ds[j].typ.PresenceCheckpoint?);
  }

  /** No connection gets both a Delta and a presence checkpoint from the connection loop of a frame. */
  lemma {:induction false} ConnStepsKeepApart(e: Engine, conns: seq<Snapshot>, at: Time, mode: Mode)
    requires Inner(e) && DistinctIds(conns) && forall c :: c in conns ==> SaneSnapshot(c)
    requires Apart(e.log, e.frame, {})
    ensures Apart(ConnSteps(e, conns, at, mode).log, e.frame, IdsOf(conns))
  {
    hide Inner, SaneSnapshot, Decide, TombsAfter, Apart;
    if conns != [] {
      var front, c := conns[..|conns| - 1], conns[|conns| - 1];
      assert c in conns && conns == front + [c];
      var s := ConnSteps(e, front, at, mode);
      ConnStepsKeepApart(e, front, at, mode);
      ConnStepsKeepInner(e, front, at, mode);
      ConnStepsKeepScalars(e, front, at, mode);
      SoundDecision(s, c, at, mode);
      ApartStep(s, Decide(s, c, at, mode).drafts, IdsOf(front), c.id);
      assert IdsOf(conns) == IdsOf(front) + {c.id};
    } else {
      assert IdsOf(conns) == {};
    }
  }

  lemma QuietKeepsApart(e: Engine, ds: seq<Draft>, ids: set<ConnId>)
    requires Apart(e.log, e.frame, ids) && forall d :: d in ds ==> !Dense(d)
    ensures Apart(Emit(e, ds).log, e.frame, ids)
  {
    forall ev | ev in Stamped(ds, e.session, e.epoch, e.frame, e.seqno) ensures !Dense(ev.body) {
      assert ev.body in ds;
    }
  }

  lemma {:induction false} CloseAllKeepsApart(e: Engine, closing: seq<ConnId>, at: Time, ids: set<ConnId>)
    requires Apart(e.log, e.frame, ids)
    ensures Apart(CloseAll(e, closing, at).log, e.frame, ids)
  {
    hide Bury, Apart, Emit;
    if closing != [] {
      var front, id := closing[..|closing| - 1], closing[|closing| - 1];
      var s := CloseAll(e, front, at);
      CloseAllKeepsApart(e, front, at, ids);
      CloseAllKeepsScalars(e, front, at);
      if id in s.active {
        QuietKeepsApart(s, [DisappearedDraft(id, s.active[id], at)], ids);
      }
    }
  }

  lemma UnobservedKeepsApart(e: Engine, start: Time, at: Time, ids: set<ConnId>)
    requires Apart(e.log, e.frame, ids)
    ensures Apart(UnobservedGap(e, start, at).log, e.frame, ids) && UnobservedGap(e, start, at).frame == e.frame
  {
    hide Apart;
    QuietKeepsApart(e, [GapOpenedDraft(start, at, UNREACHABLE), GapClosedDraft(start, at, GapReason(UNREACHABLE))],
                    ids);
  }

  lemma FrameDraftsAreQuiet(start: Time, at: Time)
    ensures forall details :: !Dense(GapClosedDraft(start, at, details))
    ensures forall kind, global, unique, residual :: !Dense(ResidualDraft(kind, global, unique, residual, at))
    ensures !Dense(Plain(CounterEpochBreak, at))
  {
  }

  lemma BootKeepsApart(e: Engine, f: Frame)
    requires Inner(e) && SaneItem(FrameItem(f)) && Apart(e.log, e.frame, {})
    ensures Apart(BootFrame(e, f).log, e.frame, IdsOf(f.conns)) && BootFrame(e, f).frame == e.frame
  {
    hide Inner, Apart, ConnSteps, Clear, UnobservedGap, SaneSnapshot, Emit, ResidualDraft;
    var e0 := e.(active := map[], tombs := Clear(e.tombs));
    EmptyStateIsInner(e);
    ConnStepsKeepApart(e0, f.conns, f.at, Booting);
    ConnStepsKeepScalars(e0, f.conns, f.at, Booting);
    var e1 := ConnSteps(e0, f.conns, f.at, Booting).(total := f.total, lastHealthy := f.at);
    UnobservedKeepsApart(e1, e1.created, f.at, IdsOf(f.conns));
    var e2 := (if e1.healthy then e1 else UnobservedGap(e1, e1.created, f.at)).(healthy := true, bootstrap := false);
    FrameDraftsAreQuiet(0, f.at);
    QuietKeepsApart(e2, [ResidualDraft(BootstrapFrame, NO_BYTES, NO_BYTES, NO_BYTES, f.at)], IdsOf(f.conns));
    EmitKeepsFrame(e2, [ResidualDraft(BootstrapFrame, NO_BYTES, NO_BYTES, NO_BYTES, f.at)]);
  }

  lemma EmitKeepsFrame(e: Engine, ds: seq<Draft>)
    ensures Emit(e, ds).frame == e.frame
  {
  }

  /** A frame that keeps its connection map: recovery or steady, after the opening events. */
  lemma LoopsKeepApart(e: Engine, f: Frame, mode: Mode)
    requires Inner(e) && SaneItem(FrameItem(f)) && Apart(e.log, e.frame, {})
    ensures var e' := CloseMissing(ConnSteps(e, f.conns, f.at, mode), f.conns, f.at);
            Apart(e'.log, e.frame, IdsOf(f.conns)) && e'.frame == e.frame
  {
    hide Inner, Apart, ConnSteps, CloseAll, Ascending, SaneSnapshot;
    ConnStepsKeepApart(e, f.conns, f.at, mode);
    ConnStepsKeepScalars(e, f.conns, f.at, mode);
    var s := ConnSteps(e, f.conns, f.at, mode);
    CloseAllKeepsApart(s, Ascending(s.active.Keys - IdsOf(f.conns)), f.at, IdsOf(f.conns));
    CloseAllKeepsScalars(s, Ascending(s.active.Keys - IdsOf(f.conns)), f.at);
  }

  lemma RecoverKeepsApart(e: Engine, f: Frame)
    requires Inner(e) && GapIs(e, true) && SaneItem(FrameItem(f)) && Apart(e.log, e.frame, {})
    ensures Apart(RecoverFrame(e, f).log, e.frame, IdsOf(f.conns)) && RecoverFrame(e, f).frame == e.frame
  {
    hide Inner, Apart, ConnSteps, CloseMissing, SaneSnapshot, Emit, ResidualDraft, GapClosedDraft, Bodies, GapAfter,
         Contribution, Contributions;
    var closed := GapClosedDraft(e.gapStart, f.at, GapDelta(Since(f, e.total)));
    FrameDraftsAreQuiet(e.gapStart, f.at);
    QuietKeepsApart(e, [closed], {});
    EmitKeepsFrame(e, [closed]);
    GapDraftsAreGlobal(e.gapStart, f.at);
    GlobalKeepsInner(e, closed);
    LoopsKeepApart(Emit(e, [closed]), f, Recovering(e.gapStart));
    var e1 := CloseMissing(ConnSteps(Emit(e, [closed]), f.conns, f.at, Recovering(e.gapStart)), f.conns, f.at)
              .(total := f.total, lastHealthy := f.at, gapOpen := false);
    QuietKeepsApart(e1, [ResidualDraft(RecoveryFrame, Since(f, e.total), NO_BYTES, NO_BYTES, f.at)], IdsOf(f.conns));
    EmitKeepsFrame(e1, [ResidualDraft(RecoveryFrame, Since(f, e.total), NO_BYTES, NO_BYTES, f.at)]);
  }

  lemma ObserveKeepsApart(e: Engine, f: Frame)
    requires Inner(e) && SaneItem(FrameItem(f)) && Apart(e.log, e.frame, {})
    ensures Apart(ObserveFrame(e, f).log, e.frame, IdsOf(f.conns)) && ObserveFrame(e, f).frame == e.frame
  {
    hide Inner, Apart, ConnSteps, CloseMissing, SaneSnapshot, Emit, ResidualDraft, ConfirmedIn, UniqueObserved;
    var mode := Steady(ConfirmedIn(e, f.conns));
    LoopsKeepApart(e, f, mode);
    var e1 := CloseMissing(ConnSteps(e, f.conns, f.at, mode), f.conns, f.at);
    var global, unique := Since(f, e.total), UniqueObserved(e, f.conns, f.at, mode);
    var d := ResidualDraft(SteadyFrame, global, unique, Bytes(global.up - unique.up, global.down - unique.down), f.at);
    FrameDraftsAreQuiet(0, f.at);
    QuietKeepsApart(e1, [d], IdsOf(f.conns));
    EmitKeepsFrame(e1, [d]);
  }

  /** No processed frame gives one connection both a Delta and a presence checkpoint, whichever path it
      takes through the state machine. */
  lemma NoDeltaWithCheckpoint(e: Engine, f: Frame)
    requires EngineOk(e) && SaneItem(FrameItem(f)) && forall ev :: ev in e.log ==> ev.pos.frame <= e.frame
    ensures Apart(ProcessFrame(e, f).log, ProcessFrame(e, f).frame, IdsOf(f.conns))
    ensures ProcessFrame(e, f).frame == e.frame + 1
  {
    hide Inner, BootFrame, RecoverFrame, ObserveFrame, GapAfter, Bodies, Contributions, SaneSnapshot, Plain, BreakEpoch,
         GapClosedDraft, Emit;
    var b := BeginFrame(e);
    InnerIgnoresFlags(e, b);
    assert Apart(b.log, b.frame, {});
    FrameDraftsAreQuiet(b.gapStart, f.at);
    if e.gapOpen && !TotalsRegress(e, f) {
      RecoverKeepsApart(b, f);
    } else if e.gapOpen {
      BrokenGapKeepsApart(b, f);
    } else if !e.bootstrap && TotalsRegress(e, f) {
      BreakKeepsInner(b, f.at);
      QuietKeepsApart(b, [Plain(CounterEpochBreak, f.at)], {});
      BreakKeepsLog(Emit(b, [Plain(CounterEpochBreak, f.at)]));
      EmitKeepsFrame(b, [Plain(CounterEpochBreak, f.at)]);
      BootKeepsApart(BreakEpoch(Emit(b, [Plain(CounterEpochBreak, f.at)])), f);
    } else if e.bootstrap {
      BootKeepsApart(b, f);
    } else {
      ObserveKeepsApart(b, f);
    }
  }

  lemma BreakKeepsLog(e: Engine)
    ensures BreakEpoch(e).log == e.log && BreakEpoch(e).frame == e.frame
  {
  }

  lemma BrokenGapKeepsApart(b: Engine, f: Frame)
    requires Inner(b) && GapIs(b, true) && SaneItem(FrameItem(f)) && Apart(b.log, b.frame, {})
    ensures var e' := BootFrame(BreakEpoch(Emit(b,
                                                [GapClosedDraft(b.gapStart, f.at, GapDeltaUnavailable),
                                                 Plain(CounterEpochBreak, f.at)]))
                                  .(gapOpen := false), f);
            Apart(e'.log, b.frame, IdsOf(f.conns)) && e'.frame == b.frame
  {
    hide Inner, Apart, BootFrame, GapAfter, Bodies, Contributions, SaneSnapshot, Plain, BreakEpoch, GapClosedDraft,
         Emit;
    var closed, broken := GapClosedDraft(b.gapStart, f.at, GapDeltaUnavailable), Plain(CounterEpochBreak, f.at);
    FrameDraftsAreQuiet(b.gapStart, f.at);
    GapDraftsAreGlobal(b.gapStart, f.at);
    GlobalKeepsInner(b, closed);
    BreakKeepsInner(Emit(b, [closed]), f.at);
    EmitTwice(b, [closed], [broken]);
    assert [closed] + [broken] == [closed, broken];
    QuietKeepsApart(b, [closed, broken], {});
    EmitKeepsFrame(b, [closed, broken]);
    var b2 := BreakEpoch(Emit(b, [closed, broken]));
    BreakKeepsLog(Emit(b, [closed, broken]));
    InnerIgnoresFlags(b2, b2.(gapOpen := false));
    BootKeepsApart(b2.(gapOpen := false), f);
  }
}
