/** Invariants of every engine run: the state agrees with the log, and every event is acceptable. */
module EngineSafety {
  import opened Types
  import opened Attribution
  import opened EventLog
  import opened Decisions
  import opened Tombstones
  import opened Engine

  // ---------------------------------------------------------------------------------------------
  // The log of an emission
  // ---------------------------------------------------------------------------------------------

  lemma BodiesOfStamped(log: seq<Event>, ds: seq<Draft>, session: SessionId, epoch: nat, frame: nat, seqno: nat)
    ensures Bodies(log + Stamped(ds, session, epoch, frame, seqno)) == Bodies(log) + ds
  {
  }

  lemma EmitBodies(e: Engine, ds: seq<Draft>)
    ensures Bodies(Emit(e, ds).log) == Bodies(e.log) + ds
  {
    BodiesOfStamped(e.log, ds, e.session, e.epoch, e.frame, e.seqno);
  }

  lemma EmitTwice(e: Engine, a: seq<Draft>, b: seq<Draft>)
    ensures Emit(Emit(e, a), b) == Emit(e, a + b)
  {
    assert Stamped(a, e.session, e.epoch, e.frame, e.seqno) + Stamped(b, e.session, e.epoch, e.frame, e.seqno + |a|)
           == Stamped(a + b, e.session, e.epoch, e.frame, e.seqno);
  }

  // ---------------------------------------------------------------------------------------------
  // State and log agree
  // ---------------------------------------------------------------------------------------------

  /** Every live connection, and every tombstone of a connection that is not live, carries the
      lifecycle total the log adds up to. */
  ghost predicate Mirrors(active: map<ConnId, Active>, tombs: Graveyard<Tomb>, ds: seq<Draft>) {
    && (forall id :: id in active ==> Agrees(TrackOf(ds, id), active[id], true))
    && (forall id :: id in tombs.stones && id !in active ==>
        Agrees(TrackOf(ds, id), tombs.stones[id].value.state, false))
  }

  /** What holds at every point inside a frame. */
  ghost predicate Inner(e: Engine) {
    AllLegal(Bodies(e.log)) && Mirrors(e.active, e.tombs, Bodies(e.log)) && e.tombs.Valid()
  }

  lemma DecisionKeepsMirrors(active: map<ConnId, Active>, tombs: Graveyard<Tomb>, tombs': Graveyard<Tomb>,
                             ds: seq<Draft>,
                             d: Decision, id: ConnId, at: Time)
    requires Mirrors(active, tombs, ds) && Justified(TrackOf(ds, id), d, id, at)
    requires forall x :: x in tombs'.stones ==> x in tombs.stones && tombs'.stones[x] == tombs.stones[x]
    ensures Mirrors(active[id := d.state], tombs', ds + d.drafts)
  {
    hide Agrees, LegalRun, TrackFrom, NotBoth, ProperTraffic, Contributions;
    forall x
      ensures TrackOf(ds + d.drafts, x) == if x == id then TrackFrom(TrackOf(ds, id), d.drafts, id) else TrackOf(ds, x)
    {
      TrackConcat(UNTRACKED, ds, d.drafts, x);
      OnlyLeavesOthers(TrackOf(ds, x), false, d.drafts, id, x);
    }
  }

  /** The decision taken for a connection is sound, whatever branch takes it. */
  lemma DecideIsSound(e: Engine, c: Snapshot, at: Time, mode: Mode)
    requires Mirrors(e.active, e.tombs, Bodies(e.log)) && SaneSnapshot(c)
    ensures Justified(TrackOf(Bodies(e.log), c.id), Decide(e, c, at, mode), c.id, at)
  {
    hide Agrees, Justified, TrackFrom, Bodies, ObserveSteady, Reobserve, ObserveNew, ObserveBootstrap,
         ObserveAcrossGap, ObserveAfterGap;
    var t := TrackOf(Bodies(e.log), c.id);
    match mode
    case Booting => BootstrapIsSound(t, c, at);
    case Recovering(gapStart) =>
      if c.id in e.active {
        AcrossGapIsSound(t, e.active[c.id], c, at, gapStart);
      } else {
        AfterGapIsSound(t, c, at);
      }
    case Steady(confirmed) =>
      if c.id in e.active {
        SteadyIsSound(t, e.active[c.id], c, at, c.id in confirmed);
      } else if IsReobservation(e, c) {
        ReobserveIsSound(t, e.tombs.stones[c.id].value, c, at, c.id in confirmed);
      } else {
        NewIsSound(t, c, at, c.id in confirmed);
      }
  }

  lemma TombsShrink(e: Engine, c: Snapshot, mode: Mode)
    requires e.tombs.Valid()
    ensures TombsAfter(e, c, mode).Valid()
    ensures forall x :: x in TombsAfter(e, c, mode).stones ==>
              x in e.tombs.stones && TombsAfter(e, c, mode).stones[x] == e.tombs.stones[x]
  {
  }

  lemma ConnStepKeepsInner(e: Engine, c: Snapshot, at: Time, mode: Mode)
    requires Inner(e) && SaneSnapshot(c)
    ensures Inner(ConnStep(e, c, at, mode))
  {
    hide AllLegal, Mirrors, Bodies, Decide, TombsAfter, TrackFrom, Agrees, Contributions, NotBoth, ProperTraffic;
    var d := Decide(e, c, at, mode);
    DecideIsSound(e, c, at, mode);
    TombsShrink(e, c, mode);
    EmitBodies(e, d.drafts);
    DecisionKeepsMirrors(e.active, e.tombs, TombsAfter(e, c, mode), Bodies(e.log), d, c.id, at);
    LegalRunExtends(Bodies(e.log), d.drafts, c.id);
  }

  lemma {:induction false} ConnStepsKeepInner(e: Engine, conns: seq<Snapshot>, at: Time, mode: Mode)
    requires Inner(e) && forall c :: c in conns ==> SaneSnapshot(c)
    ensures Inner(ConnSteps(e, conns, at, mode))
  {
    hide Inner, ConnStep, SaneSnapshot;
    if conns != [] {
      assert conns[|conns| - 1] in conns;
      ConnStepsKeepInner(e, conns[..|conns| - 1], at, mode);
      ConnStepKeepsInner(ConnSteps(e, conns[..|conns| - 1], at, mode), conns[|conns| - 1], at, mode);
    }
  }

  // ---------------------------------------------------------------------------------------------
  // Disappearances
  // ---------------------------------------------------------------------------------------------

  lemma DisappearanceIsQuiet(t: Track, id: ConnId, s: Active, at: Time, other: ConnId)
    requires t.known
    ensures Step(t, DisappearedDraft(id, s, at), other) == t
    ensures Legal(t, false, DisappearedDraft(id, s, at)) && Only([DisappearedDraft(id, s, at)], id)
    ensures IdOf(DisappearedDraft(id, s, at)) == id
  {
  }

  lemma QuietTrack(ds: seq<Draft>, id: ConnId, s: Active, at: Time)
    ensures forall x :: TrackOf(ds + [DisappearedDraft(id, s, at)], x) == TrackOf(ds, x)
  {
    var d := DisappearedDraft(id, s, at);
    assert (ds + [d])[..|ds + [d]| - 1] == ds;
  }

  lemma CloseKeepsMirrors(active: map<ConnId, Active>, tombs: Graveyard<Tomb>, ds: seq<Draft>, id: ConnId, at: Time)
    requires Mirrors(active, tombs, ds) && tombs.Valid() && id in active
    ensures Mirrors(active - {id}, Bury(tombs, id, Tomb(active[id], at)), ds + [DisappearedDraft(id, active[id], at)])
    ensures Bury(tombs, id, Tomb(active[id], at)).Valid()
  {
    hide DisappearedDraft, TrackFrom;
    BuryEffect(tombs, id, Tomb(active[id], at));
    QuietTrack(ds, id, active[id], at);
  }

  lemma CloseOneKeepsInner(e: Engine, id: ConnId, at: Time)
    requires Inner(e)
    ensures Inner(CloseOne(e, id, at))
  {
    hide AllLegal, Bodies, DisappearedDraft, TrackFrom, Bury, Graveyard<Tomb>.Queued;
    if id in e.active {
      var d := DisappearedDraft(id, e.active[id], at);
      EmitBodies(e, [d]);
      CloseKeepsMirrors(e.active, e.tombs, Bodies(e.log), id, at);
      DisappearanceIsQuiet(TrackOf(Bodies(e.log), id), id, e.active[id], at, id);
      SingleRun(TrackOf(Bodies(e.log), id), d, id);
      LegalRunExtends(Bodies(e.log), [d], id);
    }
  }

  lemma SingleRun(t: Track, d: Draft, id: ConnId)
    requires Legal(t, false, d)
    ensures LegalRun(t, [d], id)
  {
    assert [d][..|[d]| - 1] == [];
    assert LegalRun(t, [d][..|[d]| - 1], id) && TrackFrom(t, [d][..|[d]| - 1], id) == t;
  }

  lemma {:induction false} CloseAllKeepsInner(e: Engine, ids: seq<ConnId>, at: Time)
    requires Inner(e)
    ensures Inner(CloseAll(e, ids, at))
  {
    hide Inner, CloseOne;
    if ids != [] {
      CloseAllKeepsInner(e, ids[..|ids| - 1], at);
      CloseOneKeepsInner(CloseAll(e, ids[..|ids| - 1], at), ids[|ids| - 1], at);
    }
  }

  // ---------------------------------------------------------------------------------------------
  // What the connection loops leave alone
  // ---------------------------------------------------------------------------------------------

  ghost predicate SameScalars(a: Engine, b: Engine) {
    b == a.(seqno := b.seqno, active := b.active, tombs := b.tombs, log := b.log)
  }

  lemma {:induction false} ConnStepsKeepScalars(e: Engine, conns: seq<Snapshot>, at: Time, mode: Mode)
    ensures SameScalars(e, ConnSteps(e, conns, at, mode))
  {
    hide Decide, TombsAfter;
    if conns != [] {
      ConnStepsKeepScalars(e, conns[..|conns| - 1], at, mode);
    }
  }

  lemma {:induction false} CloseAllKeepsScalars(e: Engine, ids: seq<ConnId>, at: Time)
    ensures SameScalars(e, CloseAll(e, ids, at))
  {
    hide Bury;
    if ids != [] {
      CloseAllKeepsScalars(e, ids[..|ids| - 1], at);
    }
  }

  /** Connections processed earlier in the frame do not touch this one's state. */
  lemma {:induction false} OthersLeaveAlone(e: Engine, conns: seq<Snapshot>, at: Time, mode: Mode, c: Snapshot)
    requires forall x :: x in conns ==> x.id != c.id
    ensures var s := ConnSteps(e, conns, at, mode);
            && (c.id in s.active <==> c.id in e.active)
            && (c.id in e.active ==> s.active[c.id] == e.active[c.id])
            && (c.id in s.tombs.stones <==> c.id in e.tombs.stones)
            && (c.id in e.tombs.stones ==> s.tombs.stones[c.id] == e.tombs.stones[c.id])
  {
    hide Decide, Emit;
    if conns != [] {
      var front, x := conns[..|conns| - 1], conns[|conns| - 1];
      assert x in conns;
      OthersLeaveAlone(e, front, at, mode, c);
      StepTouchesOne(ConnSteps(e, front, at, mode), x, at, mode);
    }
  }

  lemma StepTouchesOne(e: Engine, c: Snapshot, at: Time, mode: Mode)
    ensures ConnStep(e, c, at, mode).active == e.active[c.id := Decide(e, c, at, mode).state]
    ensures ConnStep(e, c, at, mode).tombs == TombsAfter(e, c, mode)
  {
    hide Decide;
  }

  lemma OnlyKeepsGap(ds: seq<Draft>, more: seq<Draft>, id: ConnId)
    requires Only(more, id)
    ensures GapAfter(false, ds + more) == GapAfter(false, ds)
  {
    GapConcat(false, ds, more);
    OnlyLeavesOthers(UNTRACKED, GapAfter(false, ds), more, id, id);
  }

  lemma {:induction false} ConnStepsKeepGap(e: Engine, conns: seq<Snapshot>, at: Time, mode: Mode)
    requires Inner(e) && forall c :: c in conns ==> SaneSnapshot(c)
    ensures GapAfter(false, Bodies(ConnSteps(e, conns, at, mode).log)) == GapAfter(false, Bodies(e.log))
  {
    hide Inner, SaneSnapshot, Decide, TombsAfter, GapAfter, Bodies;
    if conns != [] {
      var front, c := conns[..|conns| - 1], conns[|conns| - 1];
      assert c in conns;
      var s := ConnSteps(e, front, at, mode);
      ConnStepsKeepGap(e, front, at, mode);
      ConnStepsKeepInner(e, front, at, mode);
      SoundDecision(s, c, at, mode);
      EmitBodies(s, Decide(s, c, at, mode).drafts);
      OnlyKeepsGap(Bodies(s.log), Decide(s, c, at, mode).drafts, c.id);
    }
  }

  /** The parts of a decision's soundness that do not mention the log. */
  lemma SoundDecision(e: Engine, c: Snapshot, at: Time, mode: Mode)
    requires Inner(e) && SaneSnapshot(c)
    ensures var d := Decide(e, c, at, mode);
            && Only(d.drafts, c.id) && AllAt(d.drafts, at) && NotBoth(d.drafts) && ProperTraffic(d.drafts)
            && at - d.state.evidence < CHECKPOINT_INTERVAL
            && Contributions(d.drafts) == d.unique
  {
    hide Decide, Only, AllAt, NotBoth, ProperTraffic, Contributions, LegalRun, Agrees, TrackFrom;
    DecideIsSound(e, c, at, mode);
  }

  lemma {:induction false} CloseAllKeepsGap(e: Engine, ids: seq<ConnId>, at: Time)
    ensures GapAfter(false, Bodies(CloseAll(e, ids, at).log)) == GapAfter(false, Bodies(e.log))
    ensures Contributions(Bodies(CloseAll(e, ids, at).log)) == Contributions(Bodies(e.log))
  {
    hide Bury, Bodies;
    if ids != [] {
      var front, id := ids[..|ids| - 1], ids[|ids| - 1];
      CloseAllKeepsGap(e, front, at);
      var s := CloseAll(e, front, at);
      if id in s.active {
        EmitBodies(s, [DisappearedDraft(id, s.active[id], at)]);
        DisappearanceAccountsNothing(Bodies(s.log), id, s.active[id], at);
      }
    }
  }

  lemma DisappearanceAccountsNothing(ds: seq<Draft>, id: ConnId, s: Active, at: Time)
    ensures GapAfter(false, ds + [DisappearedDraft(id, s, at)]) == GapAfter(false, ds)
    ensures Contributions(ds + [DisappearedDraft(id, s, at)]) == Contributions(ds)
  {
    var d := DisappearedDraft(id, s, at);
    assert (ds + [d])[..|ds + [d]| - 1] == ds;
  }

  /** The connection loop's events contribute exactly what the frame counts as uniquely observed. */
  lemma {:induction false} ConnStepsContribute(e: Engine, conns: seq<Snapshot>, at: Time, mode: Mode)
    requires Inner(e) && forall c :: c in conns ==> SaneSnapshot(c)
    ensures Contributions(Bodies(ConnSteps(e, conns, at, mode).log)).up
            == Contributions(Bodies(e.log)).up + UniqueObserved(e, conns, at, mode).up
    ensures Contributions(Bodies(ConnSteps(e, conns, at, mode).log)).down
            == Contributions(Bodies(e.log)).down + UniqueObserved(e, conns, at, mode).down
  {
    hide Inner, SaneSnapshot, Decide, TombsAfter, Contributions, Bodies;
    if conns != [] {
      var front, c := conns[..|conns| - 1], conns[|conns| - 1];
      assert c in conns;
      var s := ConnSteps(e, front, at, mode);
      ConnStepsContribute(e, front, at, mode);
      ConnStepsKeepInner(e, front, at, mode);
      SoundDecision(s, c, at, mode);
      EmitBodies(s, Decide(s, c, at, mode).drafts);
      ContributionsConcat(Bodies(s.log), Decide(s, c, at, mode).drafts);
    }
  }

  /** Bootstrap and recovery frames count nothing as uniquely observed. */
  lemma {:induction false} OnlySteadyIsUnique(e: Engine, conns: seq<Snapshot>, at: Time, mode: Mode)
    requires !mode.Steady?
    ensures UniqueObserved(e, conns, at, mode) == NO_BYTES
  {
    hide ConnSteps, ClassifyRoute, ClassifyInitialAttribution, DeltaOrPresence;
    if conns != [] {
      OnlySteadyIsUnique(e, conns[..|conns| - 1], at, mode);
    }
  }

  // ---------------------------------------------------------------------------------------------
  // Events without a connection
  // ---------------------------------------------------------------------------------------------

  predicate Global(d: Draft) {
    d.conn.None? && !NamesRow(d) && !Introduces(d) && !d.typ.CounterEpochBreak?
  }

  lemma GlobalLeavesTracks(ds: seq<Draft>, d: Draft)
    requires Global(d)
    ensures forall x :: TrackOf(ds + [d], x) == TrackOf(ds, x)
  {
    assert (ds + [d])[..|ds + [d]| - 1] == ds;
  }

  lemma GlobalKeepsInner(e: Engine, d: Draft)
    requires Inner(e) && Global(d)
    requires d.typ.MonitoringGapOpened? ==> !GapAfter(false, Bodies(e.log))
    requires d.typ.MonitoringGapClosed? ==> GapAfter(false, Bodies(e.log))
    ensures Inner(Emit(e, [d]))
    ensures GapAfter(false, Bodies(Emit(e, [d]).log))
            == if d.typ.MonitoringGapOpened? then true else if d.typ.MonitoringGapClosed? then false
                else GapAfter(false, Bodies(e.log))
    ensures Contributions(Bodies(Emit(e, [d]).log)).up == Contributions(Bodies(e.log)).up + Contribution(d).up
    ensures Contributions(Bodies(Emit(e, [d]).log)).down == Contributions(Bodies(e.log)).down + Contribution(d).down
  {
    hide Agrees, TrackFrom, Contribution, Graveyard<Tomb>.Valid, Bodies, Step;
    var ds := Bodies(e.log);
    EmitBodies(e, [d]);
    GlobalLeavesTracks(ds, d);
    assert (ds + [d])[..|ds + [d]| - 1] == ds;
  }

  /** An epoch break forgets the connections, so nothing is left to disagree with. */
  lemma BreakKeepsInner(e: Engine, at: Time)
    requires Inner(e)
    ensures Inner(BreakEpoch(Emit(e, [Plain(CounterEpochBreak, at)])))
    ensures GapAfter(false, Bodies(Emit(e, [Plain(CounterEpochBreak, at)]).log)) == GapAfter(false, Bodies(e.log))
    ensures Contributions(Bodies(Emit(e, [Plain(CounterEpochBreak, at)]).log)) == Contributions(Bodies(e.log))
  {
    hide TrackFrom, Bodies, Agrees;
    var d := Plain(CounterEpochBreak, at);
    EmitBodies(e, [d]);
    assert (Bodies(e.log) + [d])[..|Bodies(e.log) + [d]| - 1] == Bodies(e.log);
  }

  // ---------------------------------------------------------------------------------------------
  // Whole items
  // ---------------------------------------------------------------------------------------------

  /** The bytes the log accounts for so far. */
  function Booked(e: Engine): Bytes {
    Contributions(Bodies(e.log))
  }

  ghost predicate GapIs(e: Engine, open: bool) {
    GapAfter(false, Bodies(e.log)) == open
  }

  /** The invariant between items: state and log agree, the log is legal, and the gap flag is the log's. */
  ghost predicate EngineOk(e: Engine) {
    && Inner(e) && GapIs(e, e.gapOpen)
    && (e.bootstrap <==> !e.healthy)
    && (e.gapOpen ==> e.healthy)
  }

  lemma UnobservedGapKeeps(e: Engine, start: Time, end: Time)
    requires Inner(e) && GapIs(e, false)
    ensures var e' := UnobservedGap(e, start, end);
            Inner(e') && GapIs(e', false) && Booked(e') == Booked(e) && SameScalars(e, e'.(unobserved := e.unobserved))
            && e'.active == e.active
  {
    hide Inner, Plain, Bodies, GapAfter, Contributions;
    var first, second := GapOpenedDraft(start, end, UNREACHABLE), GapClosedDraft(start, end, GapReason(UNREACHABLE));
    GapDraftsAreGlobal(start, end);
    GlobalKeepsInner(e, first);
    GlobalKeepsInner(Emit(e, [first]), second);
    EmitTwice(e, [first], [second]);
    assert [first] + [second] == [first, second];
    InnerIgnoresFlags(Emit(e, [first, second]), Emit(e, [first, second]).(unobserved := true));
  }

  lemma GapDraftsAreGlobal(start: Time, end: Time)
    ensures Global(GapOpenedDraft(start, end, UNREACHABLE))
            && GapOpenedDraft(start, end, UNREACHABLE).typ.MonitoringGapOpened?
    ensures Contribution(GapOpenedDraft(start, end, UNREACHABLE)) == NO_BYTES
    ensures forall details :: var d := GapClosedDraft(start, end, details);
                              Global(d) && d.typ.MonitoringGapClosed?
                              && Contribution(d) == if details.GapDelta? then details.global else NO_BYTES
  {
  }

  lemma InnerIgnoresFlags(a: Engine, b: Engine)
    requires a.active == b.active && a.tombs == b.tombs && a.log == b.log
    ensures Inner(a) <==> Inner(b)
  {
  }

  lemma ResidualIsGlobal(kind: FrameType, global: Bytes, unique: Bytes, residual: Bytes, at: Time)
    ensures var d := ResidualDraft(kind, global, unique, residual, at);
            Global(d) && d.typ.SamplingResidual? && Contribution(d) == residual
  {
  }

  lemma EmptyStateIsInner(e: Engine)
    requires Inner(e)
    ensures Inner(e.(active := map[], tombs := Clear(e.tombs)))
  {
    hide TrackFrom;
  }

  lemma BootKeepsOk(e: Engine, f: Frame)
    requires Inner(e) && GapIs(e, false) && !e.gapOpen && SaneItem(FrameItem(f))
    ensures var e' := BootFrame(e, f);
            EngineOk(e') && Booked(e') == Booked(e) && e'.total == f.total && !e'.bootstrap && e'.epoch == e.epoch
  {
    hide Inner, ConnSteps, UniqueObserved, ResidualDraft, UnobservedGap, GapAfter, Bodies, Contributions, Clear,
         SaneSnapshot;
    var e0 := e.(active := map[], tombs := Clear(e.tombs));
    var e1 := ConnSteps(e0, f.conns, f.at, Booting);
    EmptyStateIsInner(e);
    ConnStepsKeepInner(e0, f.conns, f.at, Booting);
    ConnStepsKeepScalars(e0, f.conns, f.at, Booting);
    ConnStepsKeepGap(e0, f.conns, f.at, Booting);
    ConnStepsContribute(e0, f.conns, f.at, Booting);
    OnlySteadyIsUnique(e0, f.conns, f.at, Booting);
    var e2 := e1.(total := f.total, lastHealthy := f.at);
    InnerIgnoresFlags(e1, e2);
    UnobservedGapKeeps(e2, e2.created, f.at);
    var e3 := if e2.healthy then e2 else UnobservedGap(e2, e2.created, f.at);
    var e4 := e3.(healthy := true, bootstrap := false);
    InnerIgnoresFlags(e3, e4);
    ResidualIsGlobal(BootstrapFrame, NO_BYTES, NO_BYTES, NO_BYTES, f.at);
    GlobalKeepsInner(e4, ResidualDraft(BootstrapFrame, NO_BYTES, NO_BYTES, NO_BYTES, f.at));
  }

  lemma CloseMissingKeeps(e: Engine, conns: seq<Snapshot>, at: Time)
    requires Inner(e)
    ensures var e' := CloseMissing(e, conns, at);
            Inner(e') && SameScalars(e, e') && Booked(e') == Booked(e)
                && (forall open :: GapIs(e, open) ==> GapIs(e', open))
  {
    hide Inner, CloseAll, Bodies, GapAfter, Contributions, Ascending;
    var ids := Ascending(e.active.Keys - IdsOf(conns));
    CloseAllKeepsInner(e, ids, at);
    CloseAllKeepsScalars(e, ids, at);
    CloseAllKeepsGap(e, ids, at);
  }

  lemma RecoverKeepsOk(e: Engine, f: Frame)
    requires Inner(e) && GapIs(e, true) && e.gapOpen && e.healthy && !e.bootstrap && SaneItem(FrameItem(f))
    ensures var e' := RecoverFrame(e, f);
            EngineOk(e') && e'.total == f.total && e'.epoch == e.epoch && !e'.bootstrap
            && Booked(e') == Bytes(Booked(e).up + Since(f, e.total).up, Booked(e).down + Since(f, e.total).down)
  {
    hide Inner, ConnSteps, UniqueObserved, ResidualDraft, GapClosedDraft, GapAfter, Bodies, Contributions, SaneSnapshot,
         CloseMissing;
    var global := Since(f, e.total);
    var closed := GapClosedDraft(e.gapStart, f.at, GapDelta(global));
    GapDraftsAreGlobal(e.gapStart, f.at);
    GlobalKeepsInner(e, closed);
    var e1 := Emit(e, [closed]);
    var mode := Recovering(e.gapStart);
    var e2 := ConnSteps(e1, f.conns, f.at, mode);
    ConnStepsKeepInner(e1, f.conns, f.at, mode);
    ConnStepsKeepScalars(e1, f.conns, f.at, mode);
    ConnStepsKeepGap(e1, f.conns, f.at, mode);
    ConnStepsContribute(e1, f.conns, f.at, mode);
    OnlySteadyIsUnique(e1, f.conns, f.at, mode);
    CloseMissingKeeps(e2, f.conns, f.at);
    assert GapIs(e2, false);
    var e3 := CloseMissing(e2, f.conns, f.at);
    var e4 := e3.(total := f.total, lastHealthy := f.at, gapOpen := false);
    InnerIgnoresFlags(e3, e4);
    ResidualIsGlobal(RecoveryFrame, global, NO_BYTES, NO_BYTES, f.at);
    GlobalKeepsInner(e4, ResidualDraft(RecoveryFrame, global, NO_BYTES, NO_BYTES, f.at));
  }

  lemma SteadyKeepsOk(e: Engine, f: Frame)
    requires Inner(e) && GapIs(e, false) && !e.gapOpen && e.healthy && !e.bootstrap && SaneItem(FrameItem(f))
    ensures var e' := ObserveFrame(e, f);
            EngineOk(e') && e'.total == f.total && e'.epoch == e.epoch && !e'.bootstrap
            && Booked(e') == Bytes(Booked(e).up + Since(f, e.total).up, Booked(e).down + Since(f, e.total).down)
  {
    hide Inner, ConnSteps, UniqueObserved, ResidualDraft, GapAfter, Bodies, Contributions, SaneSnapshot, CloseMissing,
         ConfirmedIn;
    var mode := Steady(ConfirmedIn(e, f.conns));
    var e1 := ConnSteps(e, f.conns, f.at, mode);
    ConnStepsKeepInner(e, f.conns, f.at, mode);
    ConnStepsKeepScalars(e, f.conns, f.at, mode);
    ConnStepsKeepGap(e, f.conns, f.at, mode);
    ConnStepsContribute(e, f.conns, f.at, mode);
    CloseMissingKeeps(e1, f.conns, f.at);
    assert GapIs(e1, false);
    var e2 := CloseMissing(e1, f.conns, f.at);
    var global, unique := Since(f, e.total), UniqueObserved(e, f.conns, f.at, mode);
    var residual := Bytes(global.up - unique.up, global.down - unique.down);
    var d := ResidualDraft(SteadyFrame, global, unique, residual, f.at);
    ResidualIsGlobal(SteadyFrame, global, unique, residual, f.at);
    GlobalKeepsInner(e2, d);
    InnerIgnoresFlags(Emit(e2, [d]), Emit(e2, [d]).(total := f.total, lastHealthy := f.at));
  }
}
