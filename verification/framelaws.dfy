/** What a processed frame says, connection by connection and as a whole, for every engine that keeps the run
    invariant: the laws of connlaws.dfy hold of the events in the log and of the state left behind. */
module FrameLaws {
  import opened Types
  import opened Attribution
  import opened Matching
  import opened EventLog
  import opened Decisions
  import opened Tombstones
  import opened Engine
  import opened EngineSafety
  import opened ConnLaws
  import SparseEvidence

  /** The events about one connection, in order. */
  function Own(ds: seq<Draft>, id: ConnId): seq<Draft> {
    if ds == [] then []
    else Own(ds[..|ds| - 1], id) + if ds[|ds| - 1].conn == Some(id) then [ds[|ds| - 1]] else []
  }

  /** What the log gained between two engines of one run. */
  function Said(e: Engine, e': Engine): seq<Draft>
    requires |e.log| <= |e'.log|
  {
    Bodies(e'.log[|e.log|..])
  }

  ghost predicate Adds(e: Engine, e': Engine, ds: seq<Draft>) {
    e.log <= e'.log && Said(e, e') == ds
  }

  lemma EmitAdds(e: Engine, ds: seq<Draft>)
    ensures Adds(e, Emit(e, ds), ds)
  {
  }

  lemma AddsCompose(e: Engine, e1: Engine, e2: Engine, a: seq<Draft>, b: seq<Draft>)
    requires Adds(e, e1, a) && Adds(e1, e2, b)
    ensures Adds(e, e2, a + b)
  {
    assert e2.log == e1.log + e2.log[|e1.log|..];
    assert e1.log == e.log + e1.log[|e.log|..];
    assert e2.log[|e.log|..] == e1.log[|e.log|..] + e2.log[|e1.log|..];
  }

  lemma {:induction false} OwnConcat(a: seq<Draft>, b: seq<Draft>, id: ConnId)
    ensures Own(a + b, id) == Own(a, id) + Own(b, id)
  {
    if b == [] {
      assert a + b == a;
    } else {
      OwnConcat(a, b[..|b| - 1], id);
      assert (a + b)[..|a + b| - 1] == a + b[..|b| - 1];
    }
  }

  lemma {:induction false} OwnOfOnly(ds: seq<Draft>, id: ConnId, other: ConnId)
    requires Only(ds, id)
    ensures Own(ds, other) == if other == id then ds else []
  {
    if ds != [] {
      OwnOfOnly(ds[..|ds| - 1], id, other);
    }
  }

  // ---------------------------------------------------------------------------------------------
  // The connection loop
  // ---------------------------------------------------------------------------------------------

  /** Every connection decided from the state at the start of the loop. */
  function ConnDrafts(e: Engine, conns: seq<Snapshot>, at: Time, mode: Mode): seq<Draft> {
    if conns == [] then []
    else ConnDrafts(e, conns[..|conns| - 1], at, mode) + Decide(e, conns[|conns| - 1], at, mode).drafts
  }

  lemma DecideIsLocal(e: Engine, s: Engine, c: Snapshot, at: Time, mode: Mode)
    requires (c.id in s.active <==> c.id in e.active) && (c.id in e.active ==> s.active[c.id] == e.active[c.id])
    requires c.id in s.tombs.stones <==> c.id in e.tombs.stones
    requires c.id in e.tombs.stones ==> s.tombs.stones[c.id] == e.tombs.stones[c.id]
    ensures Decide(s, c, at, mode) == Decide(e, c, at, mode)
  {
    hide ObserveSteady, Reobserve, ObserveNew, ObserveBootstrap, ObserveAcrossGap, ObserveAfterGap;
  }

  /** The loop says of each connection what its decision says, and leaves the rest alone. */
  ghost predicate LoopSays(e: Engine, conns: seq<Snapshot>, at: Time, mode: Mode, s: Engine, ds: seq<Draft>) {
    && (forall c :: c in conns ==>
          && Own(ds, c.id) == Decide(e, c, at, mode).drafts
          && c.id in s.active && s.active[c.id] == Decide(e, c, at, mode).state)
    && (forall id :: id !in IdsOf(conns) ==>
          && Own(ds, id) == [] && (id in s.active <==> id in e.active)
          && (id in e.active ==> s.active[id] == e.active[id]))
  }

  lemma {:induction false} ConnStepsSay(e: Engine, conns: seq<Snapshot>, at: Time, mode: Mode)
    requires Inner(e) && DistinctIds(conns) && forall c :: c in conns ==> SaneSnapshot(c)
    ensures Adds(e, ConnSteps(e, conns, at, mode), ConnDrafts(e, conns, at, mode))
    ensures LoopSays(e, conns, at, mode, ConnSteps(e, conns, at, mode), ConnDrafts(e, conns, at, mode))
  {
    hide Inner, SaneSnapshot, Decide, Adds, LoopSays;
    if conns == [] {
      NothingSaid(e, at, mode);
    } else {
      var front, c := conns[..|conns| - 1], conns[|conns| - 1];
      assert c in conns && conns == front + [c];
      var s := ConnSteps(e, front, at, mode);
      ConnStepsSay(e, front, at, mode);
      ConnStepsKeepInner(e, front, at, mode);
      OthersLeaveAlone(e, front, at, mode, c);
      DecideIsLocal(e, s, c, at, mode);
      SoundDecision(e, c, at, mode);
      EmitAdds(s, Decide(s, c, at, mode).drafts);
      StepAdds(s, c, at, mode);
      AddsCompose(e, s, ConnStep(s, c, at, mode), ConnDrafts(e, front, at, mode), Decide(e, c, at, mode).drafts);
      StepTouchesOne(s, c, at, mode);
      LoopStep(e, front, c, at, mode, s, ConnStep(s, c, at, mode), ConnDrafts(e, front, at, mode));
    }
  }

  lemma NothingSaid(e: Engine, at: Time, mode: Mode)
    ensures Adds(e, e, []) && LoopSays(e, [], at, mode, e, [])
  {
    assert Bodies(e.log[|e.log|..]) == [];
  }

  lemma StepAdds(s: Engine, c: Snapshot, at: Time, mode: Mode)
    ensures Adds(s, ConnStep(s, c, at, mode), Decide(s, c, at, mode).drafts)
  {
    hide Decide, TombsAfter;
    EmitAdds(s, Decide(s, c, at, mode).drafts);
  }

  lemma OwnAfterStep(ds: seq<Draft>, more: seq<Draft>, id: ConnId, x: ConnId)
    requires Only(more, id)
    ensures Own(ds + more, x) == Own(ds, x) + if x == id then more else []
  {
    OwnConcat(ds, more, x);
    OwnOfOnly(more, id, x);
  }

  lemma LastIsNew(front: seq<Snapshot>, c: Snapshot)
    requires DistinctIds(front + [c])
    ensures IdsOf(front + [c]) == IdsOf(front) + {c.id} && c.id !in IdsOf(front)
  {
    forall x | x in front ensures x.id != c.id {
      var i :| 0 <= i < |front| && front[i] == x;
      assert (front + [c])[i] == x && (front + [c])[|front|] == c;
    }
  }

  lemma LoopStep(e: Engine, front: seq<Snapshot>, c: Snapshot, at: Time, mode: Mode, s: Engine, s': Engine,
                 ds: seq<Draft>)
    requires LoopSays(e, front, at, mode, s, ds) && DistinctIds(front + [c])
    requires Only(Decide(e, c, at, mode).drafts, c.id) && s'.active == s.active[c.id := Decide(e, c, at, mode).state]
    ensures LoopSays(e, front + [c], at, mode, s', ds + Decide(e, c, at, mode).drafts)
  {
    hide Decide, Only, Own, DistinctIds;
    var more := Decide(e, c, at, mode).drafts;
    LastIsNew(front, c);
    forall x ensures Own(ds + more, x) == Own(ds, x) + if x == c.id then more else [] {
      OwnAfterStep(ds, more, c.id, x);
    }
    forall x | x in front + [c]
      ensures Own(ds + more, x.id) == Decide(e, x, at, mode).drafts
      ensures x.id in s'.active && s'.active[x.id] == Decide(e, x, at, mode).state
    {
      if x in front {
        assert x.id in IdsOf(front);
      } else {
        assert x == c && Own(ds, c.id) == [];
      }
    }
  }

  // ---------------------------------------------------------------------------------------------
  // Disappearances
  // ---------------------------------------------------------------------------------------------

  function CloseDrafts(e: Engine, ids: seq<ConnId>, at: Time): seq<Draft>
    requires forall id :: id in ids ==> id in e.active
  {
    if ids == [] then []
    else CloseDrafts(e, ids[..|ids| - 1], at) + [DisappearedDraft(ids[|ids| - 1], e.active[ids[|ids| - 1]], at)]
  }

  lemma {:induction false} AscendingIsDistinct(s: set<ConnId>)
    ensures Distinct(Ascending(s))
    decreases s
  {
    if s != {} {
      MinExists(s);
      var m :| IsLeast(s, m) && Ascending(s) == [m] + Ascending(s - {m});
      AscendingIsDistinct(s - {m});
      SparseEvidence.AscendingMembers(s - {m});
    }
  }

  /** The closing loop says each missing connection once. */
  ghost predicate ClosingSays(e: Engine, ids: seq<ConnId>, at: Time, s: Engine, ds: seq<Draft>)
    requires forall id :: id in ids ==> id in e.active
  {
    && (forall id :: id in ids ==> Own(ds, id) == [DisappearedDraft(id, e.active[id], at)])
    && (forall id :: id !in ids ==> Own(ds, id) == [])
    && (forall id :: id in s.active <==> id in e.active && id !in ids)
    && (forall id :: id in s.active ==> s.active[id] == e.active[id])
  }

  lemma {:induction false} CloseAllSays(e: Engine, ids: seq<ConnId>, at: Time)
    requires Distinct(ids) && forall id :: id in ids ==> id in e.active
    ensures Adds(e, CloseAll(e, ids, at), CloseDrafts(e, ids, at))
    ensures ClosingSays(e, ids, at, CloseAll(e, ids, at), CloseDrafts(e, ids, at))
  {
    hide Adds, Own, DisappearedDraft, ClosingSays, CloseOne;
    if ids == [] {
      NothingSaid(e, at, Booting);
      NothingClosed(e, at);
    } else {
      var front, id := ids[..|ids| - 1], ids[|ids| - 1];
      CloseAllSays(e, front, at);
      SparseEvidence.CloseAllRemoves(e, front, at);
      var s := CloseAll(e, front, at);
      CloseOneAdds(s, id, at);
      SparseEvidence.CloseActive(s, id, at);
      AddsCompose(e, s, CloseOne(s, id, at), CloseDrafts(e, front, at), [DisappearedDraft(id, e.active[id], at)]);
      assert ids == front + [id];
      CloseStep(e, front, id, at, s, CloseOne(s, id, at), CloseDrafts(e, front, at));
    }
  }

  lemma NothingClosed(e: Engine, at: Time)
    ensures ClosingSays(e, [], at, e, [])
  {
  }

  lemma CloseStep(e: Engine, front: seq<ConnId>, id: ConnId, at: Time, s: Engine, s': Engine, ds: seq<Draft>)
    requires (forall x :: x in front ==> x in e.active) && id in e.active && id !in front
    requires ClosingSays(e, front, at, s, ds) && s'.active == s.active - {id}
    ensures ClosingSays(e, front + [id], at, s', ds + [DisappearedDraft(id, e.active[id], at)])
  {
    hide Own, DisappearedDraft;
    var d := DisappearedDraft(id, e.active[id], at);
    forall x ensures Own(ds + [d], x) == Own(ds, x) + if x == id then [d] else [] {
      OwnConcat(ds, [d], x);
      OwnDisappeared(id, e.active[id], at, x);
    }
  }

  lemma CloseOneAdds(e: Engine, id: ConnId, at: Time)
    requires id in e.active
    ensures Adds(e, CloseOne(e, id, at), [DisappearedDraft(id, e.active[id], at)])
  {
    hide Bury, DisappearedDraft;
    EmitAdds(e, [DisappearedDraft(id, e.active[id], at)]);
  }

  lemma OwnDisappeared(id: ConnId, s: Active, at: Time, x: ConnId)
    ensures Own([DisappearedDraft(id, s, at)], x) == if x == id then [DisappearedDraft(id, s, at)] else []
  {
    var d := DisappearedDraft(id, s, at);
    assert [d][..|[d]| - 1] == [];
  }

  /** Events about a connection, none of the frame's own. */
  ghost predicate Ordinary(ds: seq<Draft>) {
    forall d :: d in ds ==> d.conn.Some? && !d.typ.CounterEpochBreak? && !d.typ.MonitoringGapOpened?
                            && !d.typ.MonitoringGapClosed? && !d.typ.SamplingResidual?
  }

  lemma {:induction false} ConnDraftsAreOrdinary(e: Engine, conns: seq<Snapshot>, at: Time, mode: Mode)
    requires Inner(e) && forall c :: c in conns ==> SaneSnapshot(c)
    ensures Ordinary(ConnDrafts(e, conns, at, mode))
  {
    hide Inner, SaneSnapshot, Decide;
    if conns != [] {
      assert conns[|conns| - 1] in conns;
      ConnDraftsAreOrdinary(e, conns[..|conns| - 1], at, mode);
      SoundDecision(e, conns[|conns| - 1], at, mode);
    }
  }

  lemma {:induction false} CloseDraftsAreOrdinary(e: Engine, ids: seq<ConnId>, at: Time)
    requires forall id :: id in ids ==> id in e.active
    ensures Ordinary(CloseDrafts(e, ids, at))
  {
    if ids != [] {
      CloseDraftsAreOrdinary(e, ids[..|ids| - 1], at);
    }
  }

  /** The frame's loops together, before its residual. */
  ghost predicate LoopsSay(e: Engine, conns: seq<Snapshot>, at: Time, mode: Mode, s: Engine, ds: seq<Draft>) {
    && (forall c :: c in conns ==>
          && Own(ds, c.id) == Decide(e, c, at, mode).drafts
          && c.id in s.active && s.active[c.id] == Decide(e, c, at, mode).state)
    && (forall id :: id in e.active && id !in IdsOf(conns) ==>
          Own(ds, id) == [DisappearedDraft(id, e.active[id], at)])
    && (forall id :: id !in e.active && id !in IdsOf(conns) ==> Own(ds, id) == [])
    && s.active.Keys == IdsOf(conns)
  }

  lemma LoopsSayEach(e: Engine, conns: seq<Snapshot>, at: Time, mode: Mode) returns (ds: seq<Draft>)
    requires Inner(e) && DistinctIds(conns) && forall c :: c in conns ==> SaneSnapshot(c)
    ensures var s := CloseMissing(ConnSteps(e, conns, at, mode), conns, at);
            Adds(e, s, ds) && LoopsSay(e, conns, at, mode, s, ds) && Ordinary(ds) && SameScalars(e, s)
  {
    hide Inner, Decide, SaneSnapshot, Adds, Own, DisappearedDraft, ConnSteps, CloseAll, Ascending, ConnDrafts,
         CloseDrafts;
    var s := ConnSteps(e, conns, at, mode);
    var missing := s.active.Keys - IdsOf(conns);
    ConnStepsSay(e, conns, at, mode);
    AscendingIsDistinct(missing);
    SparseEvidence.AscendingMembers(missing);
    CloseAllSays(s, Ascending(missing), at);
    var a, b := ConnDrafts(e, conns, at, mode), CloseDrafts(s, Ascending(missing), at);
    AddsCompose(e, s, CloseAll(s, Ascending(missing), at), a, b);
    forall id ensures Own(a + b, id) == Own(a, id) + Own(b, id) {
      OwnConcat(a, b, id);
    }
    ConnDraftsAreOrdinary(e, conns, at, mode);
    CloseDraftsAreOrdinary(s, Ascending(missing), at);
    ConnStepsKeepScalars(e, conns, at, mode);
    CloseAllKeepsScalars(s, Ascending(missing), at);
    ds := a + b;
  }

  // ---------------------------------------------------------------------------------------------
  // The laws of a frame
  // ---------------------------------------------------------------------------------------------

  /** The connection was here earlier in this counter epoch and nothing has taken its place. */
  predicate Remembered(e: Engine, c: Snapshot) {
    c.id in e.tombs.stones && e.tombs.stones[c.id].value.state.snap.start == c.start
  }

  /** What a connection gained since the engine last knew it. */
  function Growth(e: Engine, c: Snapshot): Bytes {
    if c.id in e.active then Gained(c.counters, e.active[c.id].counters)
    else if Remembered(e, c) then Gained(c.counters, e.tombs.stones[c.id].value.state.counters)
    else c.counters
  }

  /** What of it is counted as uniquely observed: nothing of a confirmed duplicate, nor of a live connection
      with a counter that went back. */
  function Counted(e: Engine, c: Snapshot, attr: Attr): Bytes {
    if attr == ConfirmedRelayDuplicate || (c.id in e.active && Fell(c.counters, e.active[c.id].counters)) then NO_BYTES
    else Growth(e, c)
  }

  function CountedSum(e: Engine, conns: seq<Snapshot>, active: map<ConnId, Active>): Bytes
    requires forall c :: c in conns ==> c.id in active
  {
    if conns == [] then NO_BYTES
    else
      var front, c := conns[..|conns| - 1], conns[|conns| - 1];
      Plus(CountedSum(e, front, active), Counted(e, c, active[c.id].attr))
  }

  /** The connections of a steady frame. */
  ghost predicate SteadyConnSays(e: Engine, c: Snapshot, at: Time, confirmed: bool, own: seq<Draft>, s': Active) {
    && (if c.id in e.active then StaysSays(e.active[c.id], c, at, confirmed, own, s')
        else if Remembered(e, c) then ReturnsSays(e.tombs.stones[c.id].value, c, at, confirmed, own, s')
        else AppearsSays(c, at, confirmed, own, s'))
    && Contributions(own) == Counted(e, c, s'.attr)
  }

  /** The connections of a recovery frame. */
  ghost predicate RecoveredConnSays(e: Engine, c: Snapshot, at: Time, own: seq<Draft>, s': Active) {
    if c.id in e.active then SurvivesSays(e.active[c.id], c, at, e.gapStart, own, s')
    else BaselineSays(c, at, false, own, s')
  }

  /** A connection that is gone is said to be gone once, with when and how it was last seen. */
  ghost predicate GoneSays(s: Active, at: Time, own: seq<Draft>) {
    && |own| == 1 && own[0].typ.ConnectionDisappeared? && own[0].at == at
        && own[0].details == LastSeen(s.last, s.counters)
    && own[0].meta.process == s.snap.meta.process && own[0].meta.host == s.snap.meta.host
    && own[0].meta.destIP == s.snap.meta.destIP && own[0].meta.network == s.snap.meta.network
    && own[0].meta.rule == "" && own[0].meta.rulePayload == "" && own[0].meta.chains == []
  }

  predicate ResidualSays(d: Draft, kind: FrameType, global: Bytes, unique: Bytes, residual: Bytes, at: Time) {
    d.typ.SamplingResidual? && d.conn.None? && d.at == at && d.details == Residual(kind, global, unique, residual)
  }

  predicate GapEndSays(d: Draft, start: Time, at: Time, details: Details) {
    d.typ.MonitoringGapClosed? && d.conn.None? && d.at == at && d.interval == Some(Interval(start, at))
    && d.details == details
  }

  predicate GapStartSays(d: Draft, start: Time, at: Time, reason: string) {
    d.typ.MonitoringGapOpened? && d.conn.None? && d.at == at && d.interval == Some(Interval(start, at))
    && d.details == GapReason(reason)
  }

  function Minus(a: Bytes, b: Bytes): Bytes {
    Bytes(a.up - b.up, a.down - b.down)
  }

  /** The controller total went back, so its counters started over. */
  predicate TotalFell(e: Engine, f: Frame) {
    Fell(f.total, e.total)
  }

  /** Exactly the frame's connections are live, and no event names another one, unless it is gone. */
  ghost predicate OnlyItsOwn(e: Engine, f: Frame, e': Engine)
    requires |e.log| <= |e'.log|
  {
    && e'.active.Keys == IdsOf(f.conns)
    && forall id :: id !in IdsOf(f.conns) && id !in e.active ==> Own(Said(e, e'), id) == []
  }

  ghost predicate SteadyLaws(e: Engine, f: Frame, confirmed: set<ConnId>, e': Engine) {
    && e.log <= e'.log && OnlyItsOwn(e, f, e')
    && (forall c :: c in f.conns ==>
          SteadyConnSays(e, c, f.at, c.id in confirmed, Own(Said(e, e'), c.id), e'.active[c.id]))
    && (forall id :: id in e.active && id !in IdsOf(f.conns) ==> GoneSays(e.active[id], f.at, Own(Said(e, e'), id)))
    && (forall d :: d in Said(e, e') ==> !d.typ.CounterEpochBreak? && (d.conn.None? ==> d.typ.SamplingResidual?))
    && Said(e, e') != []
    && (var global, unique := Minus(f.total, e.total), CountedSum(e, f.conns, e'.active);
        ResidualSays(Said(e, e')[|Said(e, e')| - 1], SteadyFrame, global, unique, Minus(global, unique), f.at))
    && e'.total == f.total && e'.lastHealthy == f.at
  }

  ghost predicate RecoveryLaws(e: Engine, f: Frame, e': Engine) {
    var gain := Minus(f.total, e.total);
    && e.log <= e'.log && OnlyItsOwn(e, f, e')
    && (forall c :: c in f.conns ==> RecoveredConnSays(e, c, f.at, Own(Said(e, e'), c.id), e'.active[c.id]))
    && (forall id :: id in e.active && id !in IdsOf(f.conns) ==> GoneSays(e.active[id], f.at, Own(Said(e, e'), id)))
    && (forall d :: d in Said(e, e') ==> !d.typ.CounterEpochBreak?)
    && |Said(e, e')| >= 2 && GapEndSays(Said(e, e')[0], e.gapStart, f.at, GapDelta(gain))
    && ResidualSays(Said(e, e')[|Said(e, e')| - 1], RecoveryFrame, gain, NO_BYTES, NO_BYTES, f.at)
    && e'.total == f.total && e'.lastHealthy == f.at && !e'.gapOpen
  }

  /** The controller was out of reach from the start for two seconds or more, and this was not said before. */
  predicate WasUnreachable(e: Engine, end: Time) {
    !e.unobserved && e.created != ZERO_TIME && end - e.created >= 2_000_000_000
  }

  /** The gap before the first contact, opened and closed in one breath at `i`. */
  predicate UnreachableSays(ds: seq<Draft>, i: int, start: Time, end: Time) {
    0 <= i && i + 2 <= |ds| && GapStartSays(ds[i], start, end, "controller_unreachable_since_session_start")
    && GapEndSays(ds[i + 1], start, end, GapReason("controller_unreachable_since_session_start"))
  }

  /** The first frame, and a frame that breaks the counter epoch, only take baselines. A break is said first, after
      the end of an open gap, and says nothing about the old connections. */
  ghost predicate BaselineLaws(e: Engine, f: Frame, e': Engine) {
    && e.log <= e'.log && e'.active.Keys == IdsOf(f.conns)
    && (forall c :: c in f.conns ==> BaselineSays(c, f.at, true, Own(Said(e, e'), c.id), e'.active[c.id]))
    && (forall id :: id !in IdsOf(f.conns) ==> Own(Said(e, e'), id) == [])
    && (var at := if e.gapOpen then 1 else 0;
        && |Said(e, e')| > at
        && (forall i :: 0 <= i < |Said(e, e')| ==> (Said(e, e')[i].typ.CounterEpochBreak? <==> !e.bootstrap && i == at))
        && (e.gapOpen ==> GapEndSays(Said(e, e')[0], e.gapStart, f.at, GapDeltaUnavailable)))
    && ResidualSays(Said(e, e')[|Said(e, e')| - 1], BootstrapFrame, NO_BYTES, NO_BYTES, NO_BYTES, f.at)
    && (if e.bootstrap && WasUnreachable(e, f.at) then UnreachableSays(Said(e, e'), |Said(e, e')| - 3, e.created, f.at)
        else forall d :: d in Said(e, e') ==> !d.typ.MonitoringGapOpened?)
    && e'.total == f.total && e'.lastHealthy == f.at && !e'.gapOpen
    && e'.epoch == e.epoch + if e.bootstrap then 0 else 1
  }

  // ---------------------------------------------------------------------------------------------
  // Every frame keeps them
  // ---------------------------------------------------------------------------------------------

  lemma DecidedSteady(e: Engine, c: Snapshot, at: Time, confirmed: set<ConnId>)
    requires Inner(e) && SaneSnapshot(c)
    ensures var d := Decide(e, c, at, Steady(confirmed));
            && SteadyConnSays(e, c, at, c.id in confirmed, d.drafts, d.state)
            && d.unique == Counted(e, c, d.state.attr)
            && Only(d.drafts, c.id)
  {
    hide Inner, StaysSays, ReturnsSays, AppearsSays, Contributions, Only, EvolveMeta, DeltaOrPresence, ReobservedDrafts,
         ClassifyRoute, ClassifyInitialAttribution;
    SoundDecision(e, c, at, Steady(confirmed));
    if c.id in e.active {
      SteadySays(e.active[c.id], c, at, c.id in confirmed);
      SteadyCounts(e.active[c.id], c, at, c.id in confirmed);
    } else if Remembered(e, c) {
      ReobservedSays(e.tombs.stones[c.id].value, c, at, c.id in confirmed);
      GainedIsClamped(c, e.tombs.stones[c.id].value.state.counters);
    } else {
      NewSays(c, at, c.id in confirmed);
    }
  }

  lemma SteadyCounts(prev: Active, c: Snapshot, at: Time, confirmed: bool)
    ensures var d := ObserveSteady(prev, c, at, confirmed);
            d.unique == if d.state.attr == ConfirmedRelayDuplicate || Fell(c.counters, prev.counters) then NO_BYTES
                        else Gained(c.counters, prev.counters)
  {
    hide EvolveMeta;
    GainedIsClamped(c, prev.counters);
  }

  lemma {:induction false} UniqueIsCounted(e: Engine, conns: seq<Snapshot>, at: Time, confirmed: set<ConnId>,
                                           active: map<ConnId, Active>)
    requires Inner(e) && DistinctIds(conns) && forall c :: c in conns ==> SaneSnapshot(c)
    requires forall c :: c in conns ==>
               c.id in active && active[c.id].attr == Decide(e, c, at, Steady(confirmed)).state.attr
    ensures UniqueObserved(e, conns, at, Steady(confirmed)) == CountedSum(e, conns, active)
  {
    hide Inner, SaneSnapshot, Decide, Counted, ConnSteps;
    if conns != [] {
      var front, c := conns[..|conns| - 1], conns[|conns| - 1];
      var mode := Steady(confirmed);
      assert c in conns;
      UniqueIsCounted(e, front, at, confirmed, active);
      OthersLeaveAlone(e, front, at, mode, c);
      DecideIsLocal(e, ConnSteps(e, front, at, mode), c, at, mode);
      DecidedSteady(e, c, at, confirmed);
    }
  }

  lemma DecidedRecovering(e: Engine, c: Snapshot, at: Time)
    ensures var d := Decide(e, c, at, Recovering(e.gapStart)); RecoveredConnSays(e, c, at, d.drafts, d.state)
  {
    hide SurvivesSays, BaselineSays;
    if c.id in e.active {
      AcrossGapSays(e.active[c.id], c, at, e.gapStart);
    } else {
      BootstrapSays(c, at);
    }
  }

  lemma DisappearedSays(id: ConnId, s: Active, at: Time)
    ensures GoneSays(s, at, [DisappearedDraft(id, s, at)])
  {
  }

  /** What the loops say survives the frame's own events around them. */
  lemma SurroundedOwn(before: seq<Draft>, ds: seq<Draft>, after: seq<Draft>, id: ConnId)
    requires forall d :: d in before ==> d.conn == None
    requires forall d :: d in after ==> d.conn == None
    ensures Own(before + ds + after, id) == Own(ds, id)
  {
    OwnConcat(before + ds, after, id);
    OwnConcat(before, ds, id);
    NoneOwn(before, id);
    NoneOwn(after, id);
  }

  lemma {:induction false} NoneOwn(ds: seq<Draft>, id: ConnId)
    requires forall d :: d in ds ==> d.conn == None
    ensures Own(ds, id) == []
  {
    if ds != [] {
      NoneOwn(ds[..|ds| - 1], id);
    }
  }

  lemma {:induction false} DeltasIgnoreFlags(a: Engine, b: Engine, conns: seq<Snapshot>)
    requires a.active == b.active && a.tombs == b.tombs
    ensures FrameDeltas(a, conns) == FrameDeltas(b, conns)
  {
    if conns != [] {
      DeltasIgnoreFlags(a, b, conns[..|conns| - 1]);
    }
  }

  lemma ConnSaysIgnoresFlags(a: Engine, b: Engine, c: Snapshot, at: Time, confirmed: bool, own: seq<Draft>, s': Active)
    requires a.active == b.active && a.tombs == b.tombs
    ensures SteadyConnSays(a, c, at, confirmed, own, s') <==> SteadyConnSays(b, c, at, confirmed, own, s')
    ensures Counted(a, c, s'.attr) == Counted(b, c, s'.attr)
  {
    hide StaysSays, ReturnsSays, AppearsSays, Contributions;
  }

  lemma {:induction false} SumIgnoresFlags(a: Engine, b: Engine, conns: seq<Snapshot>, active: map<ConnId, Active>)
    requires a.active == b.active && a.tombs == b.tombs && forall c :: c in conns ==> c.id in active
    ensures CountedSum(a, conns, active) == CountedSum(b, conns, active)
  {
    if conns != [] {
      SumIgnoresFlags(a, b, conns[..|conns| - 1], active);
    }
  }

  /** A steady frame, from the loops' events to the laws. */
  lemma SteadyLoopsSay(e: Engine, f: Frame, confirmed: set<ConnId>, s: Engine, ds: seq<Draft>, e': Engine, r: Draft)
    requires Inner(e) && SaneItem(FrameItem(f)) && LoopsSay(e, f.conns, f.at, Steady(confirmed), s, ds) && Ordinary(ds)
    requires Adds(e, e', ds + [r]) && e'.active == s.active && e'.total == f.total && e'.lastHealthy == f.at
    requires var unique := UniqueObserved(e, f.conns, f.at, Steady(confirmed));
             ResidualSays(r, SteadyFrame, Minus(f.total, e.total), unique, Minus(Minus(f.total, e.total), unique), f.at)
    ensures SteadyLaws(e, f, confirmed, e')
  {
    hide Inner, Decide, SteadyConnSays, GoneSays, UniqueObserved, CountedSum, Own, DisappearedDraft, ResidualSays;
    var said := ds + [r];
    var global, unique := Minus(f.total, e.total), UniqueObserved(e, f.conns, f.at, Steady(confirmed));
    ResidualIsQuiet(r, SteadyFrame, global, unique, Minus(global, unique), f.at);
    forall id ensures Own(said, id) == Own(ds, id) {
      SurroundedOwn([], ds, [r], id);
      assert [] + ds + [r] == said;
    }
    forall c | c in f.conns ensures SteadyConnSays(e, c, f.at, c.id in confirmed, Own(said, c.id), s.active[c.id]) {
      DecidedSteady(e, c, f.at, confirmed);
    }
    forall id | id in e.active && id !in IdsOf(f.conns) ensures GoneSays(e.active[id], f.at, Own(said, id)) {
      DisappearedSays(id, e.active[id], f.at);
    }
    UniqueIsCounted(e, f.conns, f.at, confirmed, s.active);
  }

  lemma ResidualIsQuiet(r: Draft, kind: FrameType, global: Bytes, unique: Bytes, residual: Bytes, at: Time)
    requires ResidualSays(r, kind, global, unique, residual, at)
    ensures r.conn == None && r.typ.SamplingResidual?
  {
  }

  lemma ObserveFrameSays(e: Engine, f: Frame)
    requires Inner(e) && SaneItem(FrameItem(f))
    ensures SteadyLaws(e, f, ConfirmedIn(e, f.conns), ObserveFrame(e, f))
  {
    hide Inner, ConnSteps, CloseMissing, UniqueObserved, ConfirmedIn, Adds, LoopsSay, Ordinary, SteadyLaws;
    var mode := Steady(ConfirmedIn(e, f.conns));
    var ds := LoopsSayEach(e, f.conns, f.at, mode);
    var s := CloseMissing(ConnSteps(e, f.conns, f.at, mode), f.conns, f.at);
    var global, unique := Since(f, e.total), UniqueObserved(e, f.conns, f.at, mode);
    var r := ResidualDraft(SteadyFrame, global, unique, Minus(global, unique), f.at);
    EmitAdds(s, [r]);
    AddsCompose(e, s, Emit(s, [r]), ds, [r]);
    var e' := Emit(s, [r]).(total := f.total, lastHealthy := f.at);
    AddsIgnoresFlags(e, Emit(s, [r]), e, e', ds + [r]);
    SteadyLoopsSay(e, f, ConfirmedIn(e, f.conns), s, ds, e', r);
  }

  lemma AddsIgnoresFlags(a: Engine, a': Engine, b: Engine, b': Engine, ds: seq<Draft>)
    requires a.log == b.log && a'.log == b'.log
    ensures Adds(a, a', ds) <==> Adds(b, b', ds)
  {
  }

  lemma RecoveryLoopsSay(e: Engine, f: Frame, s: Engine, ds: seq<Draft>, e': Engine, g: Draft, r: Draft)
    requires Inner(e) && SaneItem(FrameItem(f)) && LoopsSay(e, f.conns, f.at, Recovering(e.gapStart), s, ds)
    requires Ordinary(ds) && Adds(e, e', [g] + ds + [r]) && e'.active == s.active
    requires GapEndSays(g, e.gapStart, f.at, GapDelta(Minus(f.total, e.total)))
    requires ResidualSays(r, RecoveryFrame, Minus(f.total, e.total), NO_BYTES, NO_BYTES, f.at)
    requires e'.total == f.total && e'.lastHealthy == f.at && !e'.gapOpen
    ensures RecoveryLaws(e, f, e')
  {
    hide Inner, Decide, RecoveredConnSays, GoneSays, Own, DisappearedDraft, ResidualSays;
    var said := [g] + ds + [r];
    ResidualIsQuiet(r, RecoveryFrame, Minus(f.total, e.total), NO_BYTES, NO_BYTES, f.at);
    forall id ensures Own(said, id) == Own(ds, id) {
      SurroundedOwn([g], ds, [r], id);
    }
    forall c | c in f.conns ensures RecoveredConnSays(e, c, f.at, Own(said, c.id), s.active[c.id]) {
      DecidedRecovering(e, c, f.at);
    }
    forall id | id in e.active && id !in IdsOf(f.conns) ensures GoneSays(e.active[id], f.at, Own(said, id)) {
      DisappearedSays(id, e.active[id], f.at);
    }
  }

  lemma RecoverFrameSays(e: Engine, f: Frame)
    requires Inner(e) && GapIs(e, true) && SaneItem(FrameItem(f))
    ensures RecoveryLaws(e, f, RecoverFrame(e, f))
  {
    hide Inner, ConnSteps, CloseMissing, Adds, LoopsSay, Ordinary, RecoveryLaws, GapAfter, Bodies, Contribution,
         Contributions;
    var gain, mode := Since(f, e.total), Recovering(e.gapStart);
    var g := GapClosedDraft(e.gapStart, f.at, GapDelta(gain));
    GapDraftsAreGlobal(e.gapStart, f.at);
    GlobalKeepsInner(e, g);
    var e1 := Emit(e, [g]);
    EmitAdds(e, [g]);
    var ds := LoopsSayEach(e1, f.conns, f.at, mode);
    var s := CloseMissing(ConnSteps(e1, f.conns, f.at, mode), f.conns, f.at);
    AddsCompose(e, e1, s, [g], ds);
    var s' := s.(total := f.total, lastHealthy := f.at, gapOpen := false);
    AddsIgnoresFlags(e, s, e, s', [g] + ds);
    var r := ResidualDraft(RecoveryFrame, gain, NO_BYTES, NO_BYTES, f.at);
    EmitAdds(s', [r]);
    AddsCompose(e, s', Emit(s', [r]), [g] + ds, [r]);
    LoopsIgnoreFlags(e1, e, f.conns, f.at, mode, s, ds);
    RecoveryLoopsSay(e, f, s, ds, Emit(s', [r]), g, r);
  }

  lemma LoopsIgnoreFlags(a: Engine, b: Engine, conns: seq<Snapshot>, at: Time, mode: Mode, s: Engine, ds: seq<Draft>)
    requires LoopsSay(a, conns, at, mode, s, ds) && a.active == b.active && a.tombs == b.tombs
    ensures LoopsSay(b, conns, at, mode, s, ds)
  {
    hide Decide, Own, DisappearedDraft;
    forall c | c in conns ensures Decide(a, c, at, mode) == Decide(b, c, at, mode) {
      DecideIsLocal(a, b, c, at, mode);
    }
  }

  // ---------------------------------------------------------------------------------------------
  // Baselines
  // ---------------------------------------------------------------------------------------------

  /** What a baseline frame says after its break: the connections, the gap before the first contact, the residual. */
  ghost predicate BootSays(e: Engine, f: Frame, e': Engine, ds: seq<Draft>, pair: seq<Draft>, r: Draft) {
    && Adds(e, e', ds + pair + [r]) && Ordinary(ds) && e'.active.Keys == IdsOf(f.conns)
    && (forall c :: c in f.conns ==> BaselineSays(c, f.at, true, Own(ds, c.id), e'.active[c.id]))
    && (forall id :: id !in IdsOf(f.conns) ==> Own(ds, id) == [])
    && (if !e.healthy && WasUnreachable(e, f.at) then |pair| == 2 && UnreachableSays(pair, 0, e.created, f.at)
        else pair == [])
    && ResidualSays(r, BootstrapFrame, NO_BYTES, NO_BYTES, NO_BYTES, f.at)
    && e'.total == f.total && e'.lastHealthy == f.at && e'.gapOpen == e.gapOpen && e'.epoch == e.epoch
  }

  lemma UnobservedAdds(e: Engine, end: Time) returns (pair: seq<Draft>)
    ensures var e' := if e.healthy then e else UnobservedGap(e, e.created, end);
            && Adds(e, e', pair) && e'.active == e.active && SameScalars(e, e'.(unobserved := e.unobserved))
            && (if !e.healthy && WasUnreachable(e, end) then |pair| == 2 && UnreachableSays(pair, 0, e.created, end)
                else pair == [])
  {
    if !e.healthy && !e.unobserved && e.created != ZERO_TIME && e.created < end
       && end - e.created >= UNREACHABLE_GAP_MIN {
      pair := [GapOpenedDraft(e.created, end, UNREACHABLE), GapClosedDraft(e.created, end, GapReason(UNREACHABLE))];
      EmitAdds(e, pair);
    } else {
      pair := [];
      NothingSaid(e, end, Booting);
    }
  }

  lemma BootLoopSays(e: Engine, f: Frame) returns (ds: seq<Draft>)
    requires Inner(e) && SaneItem(FrameItem(f))
    ensures var e0 := e.(active := map[], tombs := Clear(e.tombs));
            var s := ConnSteps(e0, f.conns, f.at, Booting);
            && Adds(e0, s, ds) && Ordinary(ds) && s.active.Keys == IdsOf(f.conns) && SameScalars(e0, s)
            && (forall c :: c in f.conns ==> BaselineSays(c, f.at, true, Own(ds, c.id), s.active[c.id]))
            && (forall id :: id !in IdsOf(f.conns) ==> Own(ds, id) == [])
  {
    hide Inner, Adds, ConnSteps, ConnDrafts, BaselineSays, SaneSnapshot, ObserveBootstrap, Clear, Own;
    var e0 := e.(active := map[], tombs := Clear(e.tombs));
    EmptyStateIsInner(e);
    ConnStepsSay(e0, f.conns, f.at, Booting);
    ConnDraftsAreOrdinary(e0, f.conns, f.at, Booting);
    ConnStepsKeepScalars(e0, f.conns, f.at, Booting);
    ds := ConnDrafts(e0, f.conns, f.at, Booting);
    forall c | c in f.conns
      ensures BaselineSays(c, f.at, true, Decide(e0, c, f.at, Booting).drafts, Decide(e0, c, f.at, Booting).state)
    {
      BootstrapSays(c, f.at);
    }
  }

  lemma BootFrameSays(e: Engine, f: Frame) returns (ds: seq<Draft>, pair: seq<Draft>, r: Draft)
    requires Inner(e) && SaneItem(FrameItem(f))
    ensures BootSays(e, f, BootFrame(e, f), ds, pair, r)
  {
    hide Inner, Adds, ConnSteps, BaselineSays, Clear, Own, UnobservedGap, Ordinary, WasUnreachable, UnreachableSays;
    var e0 := e.(active := map[], tombs := Clear(e.tombs));
    ds := BootLoopSays(e, f);
    var s := ConnSteps(e0, f.conns, f.at, Booting);
    var s1 := s.(total := f.total, lastHealthy := f.at);
    AddsIgnoresFlags(e0, s, e, s1, ds);
    pair := UnobservedAdds(s1, f.at);
    var s2 := if s1.healthy then s1 else UnobservedGap(s1, s1.created, f.at);
    AddsCompose(e, s1, s2, ds, pair);
    var s3 := s2.(healthy := true, bootstrap := false);
    AddsIgnoresFlags(e, s2, e, s3, ds + pair);
    r := ResidualDraft(BootstrapFrame, NO_BYTES, NO_BYTES, NO_BYTES, f.at);
    EmitAdds(s3, [r]);
    AddsCompose(e, s3, Emit(s3, [r]), ds + pair, [r]);
    assert WasUnreachable(s1, f.at) <==> WasUnreachable(e, f.at) by { SameReach(s1, e, f.at); }
  }

  lemma SameReach(a: Engine, b: Engine, end: Time)
    requires a.unobserved == b.unobserved && a.created == b.created
    ensures WasUnreachable(a, end) <==> WasUnreachable(b, end)
  {
  }

  /** The break stands where it is said, and nowhere else. */
  lemma BreakIsFirst(first: seq<Draft>, rest: seq<Draft>, broke: bool)
    requires forall d :: d in rest ==> !d.typ.CounterEpochBreak?
    requires if broke then first != [] && first[|first| - 1].typ.CounterEpochBreak?
                           && forall i :: 0 <= i < |first| - 1 ==> !first[i].typ.CounterEpochBreak?
             else first == []
    ensures forall i :: 0 <= i < |first + rest| ==>
              ((first + rest)[i].typ.CounterEpochBreak? <==> broke && i == |first| - 1)
  {
    forall i | 0 <= i < |first + rest|
      ensures (first + rest)[i].typ.CounterEpochBreak? <==> broke && i == |first| - 1
    {
      if i >= |first| {
        assert (first + rest)[i] == rest[i - |first|] && rest[i - |first|] in rest;
      }
    }
  }

  /** What follows the break: no other break, and no opened gap but the one before the first contact. */
  lemma RestIsQuiet(ds: seq<Draft>, pair: seq<Draft>, r: Draft, start: Time, end: Time)
    requires Ordinary(ds) && r.typ.SamplingResidual? && (pair == [] || UnreachableSays(pair, 0, start, end))
    requires |pair| <= 2
    ensures forall d :: d in ds + pair + [r] ==> !d.typ.CounterEpochBreak?
    ensures pair == [] ==> forall d :: d in ds + pair + [r] ==> !d.typ.MonitoringGapOpened?
  {
  }

  lemma PairIsLast(before: seq<Draft>, pair: seq<Draft>, r: Draft, start: Time, end: Time)
    requires |pair| == 2 && UnreachableSays(pair, 0, start, end)
    ensures UnreachableSays(before + pair + [r], |before + pair + [r]| - 3, start, end)
  {
    var said := before + pair + [r];
    assert said[|said| - 3] == pair[0] && said[|said| - 2] == pair[1];
  }

  /** After what is said first, a baseline frame obeys the laws. */
  lemma BootObeysLaws(e: Engine, f: Frame, b: Engine, first: seq<Draft>, e': Engine, ds: seq<Draft>, pair: seq<Draft>,
                      r: Draft)
    requires Adds(e, b, first) && BootSays(b, f, e', ds, pair, r) && !b.gapOpen
    requires b.healthy == e.healthy && b.unobserved == e.unobserved && b.created == e.created
    requires (e.bootstrap <==> !e.healthy) && b.epoch == e.epoch + if e.bootstrap then 0 else 1
    requires forall i :: 0 <= i < |first| ==> first[i].conn == None && !first[i].typ.MonitoringGapOpened?
    requires if e.bootstrap then first == [] && !e.gapOpen
             else |first| == (if e.gapOpen then 2 else 1) && first[|first| - 1].typ.CounterEpochBreak?
                  && (e.gapOpen ==> GapEndSays(first[0], e.gapStart, f.at, GapDeltaUnavailable))
    ensures BaselineLaws(e, f, e')
  {
    hide BaselineSays, Own, Adds, Ordinary, UnreachableSays, WasUnreachable;
    var rest := ds + pair + [r];
    AddsCompose(e, b, e', first, rest);
    AddsSaid(e, e', first + rest);
    var said := first + rest;
    assert said == first + ds + (pair + [r]) && said == (first + ds) + pair + [r];
    PairHasNoConn(pair, e.created, f.at);
    forall id ensures Own(said, id) == Own(ds, id) {
      SurroundedOwn(first, ds, pair + [r], id);
    }
    RestIsQuiet(ds, pair, r, e.created, f.at);
    BreakIsFirst(first, rest, !e.bootstrap);
    SameReach(b, e, f.at);
    if !e.healthy && WasUnreachable(e, f.at) {
      PairIsLast(first + ds, pair, r, e.created, f.at);
    }
  }

  lemma AddsSaid(e: Engine, e': Engine, ds: seq<Draft>)
    requires Adds(e, e', ds)
    ensures e.log <= e'.log && Said(e, e') == ds
  {
  }

  lemma PairHasNoConn(pair: seq<Draft>, start: Time, end: Time)
    requires |pair| <= 2 && (pair == [] || UnreachableSays(pair, 0, start, end))
    ensures forall d :: d in pair ==> d.conn == None
  {
  }

  lemma SteadyLawsIgnoreFlags(a: Engine, b: Engine, f: Frame, confirmed: set<ConnId>, e': Engine)
    requires a.active == b.active && a.tombs == b.tombs && a.log == b.log && a.total == b.total
    requires SteadyLaws(a, f, confirmed, e')
    ensures SteadyLaws(b, f, confirmed, e')
  {
    hide SteadyConnSays, GoneSays, ResidualSays, Own, CountedSum;
    assert Said(a, e') == Said(b, e');
    forall c | c in f.conns
      ensures SteadyConnSays(b, c, f.at, c.id in confirmed, Own(Said(b, e'), c.id), e'.active[c.id])
    {
      ConnSaysIgnoresFlags(a, b, c, f.at, c.id in confirmed, Own(Said(b, e'), c.id), e'.active[c.id]);
    }
    SumIgnoresFlags(a, b, f.conns, e'.active);
  }

  lemma RecoveryLawsIgnoreFlags(a: Engine, b: Engine, f: Frame, e': Engine)
    requires a.active == b.active && a.tombs == b.tombs && a.log == b.log && a.total == b.total
    requires a.gapStart == b.gapStart && RecoveryLaws(a, f, e')
    ensures RecoveryLaws(b, f, e')
  {
    hide GoneSays, ResidualSays, Own, SurvivesSays, BaselineSays, GapEndSays;
  }

  /** A frame of every engine that keeps the run invariant obeys the laws of its kind: the first frame and one
      whose total went back take baselines, the first after a gap accounts for the gap, all others are steady. */
  lemma FrameSays(e: Engine, f: Frame)
    requires EngineOk(e) && SaneItem(FrameItem(f))
    ensures var e' := ProcessFrame(e, f);
            if e.bootstrap || TotalFell(e, f) then BaselineLaws(e, f, e')
            else if e.gapOpen then RecoveryLaws(e, f, e')
            else SteadyLaws(e, f, ConfirmedIn(e, f.conns), e')
  {
    hide Inner, BootFrame, RecoverFrame, ObserveFrame, Adds, BaselineLaws, RecoveryLaws, SteadyLaws, BootSays,
         SaneSnapshot,
         ConfirmedIn;
    var b := BeginFrame(e);
    InnerIgnoresFlags(e, b);
    if e.bootstrap {
      NothingSaid(e, f.at, Booting);
      AddsIgnoresFlags(e, e, e, b, []);
      var ds, pair, r := BootFrameSays(b, f);
      BootObeysLaws(e, f, b, [], BootFrame(b, f), ds, pair, r);
    } else if TotalFell(e, f) {
      BrokenFrameSays(e, f);
    } else if e.gapOpen {
      RecoverFrameSays(b, f);
      RecoveryLawsIgnoreFlags(b, e, f, RecoverFrame(b, f));
    } else {
      ObserveFrameSays(b, f);
      SameConfirmed(b, e, f.conns);
      SteadyLawsIgnoreFlags(b, e, f, ConfirmedIn(e, f.conns), ObserveFrame(b, f));
    }
  }

  lemma SameConfirmed(a: Engine, b: Engine, conns: seq<Snapshot>)
    requires a.active == b.active && a.tombs == b.tombs
    ensures ConfirmedIn(a, conns) == ConfirmedIn(b, conns)
  {
    DeltasIgnoreFlags(a, b, conns);
  }

  lemma BrokenFrameSays(e: Engine, f: Frame)
    requires EngineOk(e) && SaneItem(FrameItem(f)) && !e.bootstrap && TotalFell(e, f)
    ensures BaselineLaws(e, f, ProcessFrame(e, f))
  {
    hide Inner, BootFrame, RecoverFrame, ObserveFrame, Adds, BaselineLaws, BootSays, SaneSnapshot, GapAfter, Bodies,
         Contributions;
    var b := BeginFrame(e);
    InnerIgnoresFlags(e, b);
    var broken := Plain(CounterEpochBreak, f.at);
    var closed := GapClosedDraft(e.gapStart, f.at, GapDeltaUnavailable);
    var first := if e.gapOpen then [closed, broken] else [broken];
    if e.gapOpen {
      GapDraftsAreGlobal(b.gapStart, f.at);
      GlobalKeepsInner(b, closed);
      BreakKeepsInner(Emit(b, [closed]), f.at);
      EmitTwice(b, [closed], [broken]);
      assert [closed] + [broken] == first;
    } else {
      BreakKeepsInner(b, f.at);
    }
    var b1 := BreakEpoch(Emit(b, first)).(gapOpen := false);
    InnerIgnoresFlags(BreakEpoch(Emit(b, first)), b1);
    EmitAdds(b, first);
    AddsIgnoresFlags(b, Emit(b, first), e, b1, first);
    assert ProcessFrame(e, f) == BootFrame(b1, f) by { BrokenFrame(e, f); }
    var ds, pair, r := BootFrameSays(b1, f);
    BootObeysLaws(e, f, b1, first, BootFrame(b1, f), ds, pair, r);
  }

  lemma BrokenFrame(e: Engine, f: Frame)
    requires !e.bootstrap && TotalFell(e, f)
    ensures var first := if e.gapOpen then [GapClosedDraft(e.gapStart, f.at, GapDeltaUnavailable),
                                            Plain(CounterEpochBreak, f.at)] else [Plain(CounterEpochBreak, f.at)];
            ProcessFrame(e, f) == BootFrame(BreakEpoch(Emit(BeginFrame(e), first)).(gapOpen := false), f)
  {
    hide BootFrame, RecoverFrame, ObserveFrame, Plain;
    if !e.gapOpen {
      var b := BreakEpoch(Emit(BeginFrame(e), [Plain(CounterEpochBreak, f.at)]));
      assert b.(gapOpen := false) == b;
    }
  }
}
