/** What the laws of a frame mean: confirmed duplicates, residuals, the memory of connections that are gone, and
    the other items the engine takes. */
module Frames {
  import opened Types
  import opened Attribution
  import opened Matching
  import opened EventLog
  import opened Decisions
  import opened Tombstones
  import opened Engine
  import opened EngineSafety
  import opened ConnLaws
  import opened FrameLaws
  import Evidence
  import SparseEvidence

  predicate SteadyFrame(e: Engine, f: Frame) {
    !e.gapOpen && !e.bootstrap && e.total.up <= f.total.up && e.total.down <= f.total.down
  }

  // ---------------------------------------------------------------------------------------------
  // Which connections a frame confirms
  // ---------------------------------------------------------------------------------------------

  /** In this frame the first connection relays for the second: it has no name of its own, the other has, both go
      through the same first hop, and what they gained agrees in both directions. */
  predicate RelaysInFrame(e: Engine, c: Snapshot, l: Snapshot) {
    var d, g := Growth(e, c), Growth(e, l);
    && Blank(c.meta.process) && Blank(c.meta.rule) && !Blank(l.meta.process) && !Blank(l.meta.rule)
    && c.meta.chains != [] && |l.meta.chains| >= 2 && c.meta.chains[0] == l.meta.chains[0]
    && (d.up > 500 || d.down > 500 || g.up > 500 || g.down > 500)
    && NearInFrame(d.up, g.up) && NearInFrame(d.down, g.down)
  }

  lemma DeltaIsGrowth(e: Engine, c: Snapshot)
    ensures FrameDelta(e, c) == Growth(e, c)
  {
  }

  lemma {:induction false} FrameDeltasSay(e: Engine, conns: seq<Snapshot>)
    requires DistinctIds(conns)
    ensures forall c :: c in conns ==> DeltaAt(FrameDeltas(e, conns), c.id) == Growth(e, c)
  {
    hide FrameDelta, Growth;
    if conns != [] {
      var front, last := conns[..|conns| - 1], conns[|conns| - 1];
      assert conns == front + [last];
      FrameDeltasSay(e, front);
      DeltaIsGrowth(e, last);
      forall c | c in front ensures c.id != last.id {
      }
    }
  }

  lemma EdgeIsRelay(e: Engine, conns: seq<Snapshot>, c: Snapshot, l: Snapshot)
    requires DistinctIds(conns) && c in conns && l in conns
    ensures (c.id, l.id) in FrameGraph(MetasOf(conns), FrameDeltas(e, conns)).edges <==> RelaysInFrame(e, c, l)
  {
    hide NearInFrame, Blank, Growth, FrameDeltas, FrameGraph;
    MetasOfMembers(conns);
    FrameDeltasSay(e, conns);
    FrameEdgeIff(MetasOf(conns), FrameDeltas(e, conns), c.id, l.id);
  }

  /** A frame confirms exactly the connections that relay for one other and are the only one that relays for it. */
  lemma ConfirmedIff(e: Engine, conns: seq<Snapshot>, c: Snapshot)
    requires DistinctIds(conns) && c in conns
    ensures c.id in ConfirmedIn(e, conns) <==> exists l :: OnlyRelay(e, conns, c, l)
  {
    hide RelaysInFrame, FrameDeltas, FrameRole, CheckStructuralRelayPair, MetasOf;
    var g := FrameGraph(MetasOf(conns), FrameDeltas(e, conns));
    assert g.Valid();
    MetasOfMembers(conns);
    forall a, b | a in conns && b in conns ensures (a.id, b.id) in g.edges <==> RelaysInFrame(e, a, b) {
      EdgeIsRelay(e, conns, a, b);
    }
    ConfirmedIsOnlyEdge(g, c.id);
    EdgesAreRelays(e, conns, g, c);
  }

  lemma ConfirmedIsOnlyEdge(g: Graph<ConnId>, id: ConnId)
    requires g.Valid() && id in g.roles
    ensures g.Confirmed(id) <==> exists l: ConnId :: OnlyEdge(g, id, l)
  {
    ClassIff(g, id);
    if g.Confirmed(id) {
      var l :| l in g.roles && g.ConfirmedPair(id, l);
      assert l in g.Partners(id);
      assert g.ClassOf(id) == ConfirmedDuplicate;
      var x: ConnId :| && (id, x) in g.edges && (forall y :: (id, y) in g.edges ==> y == x)
                       && (forall y :: (y, x) in g.edges ==> y == id);
      assert OnlyEdge(g, id, x);
    }
    if l: ConnId :| OnlyEdge(g, id, l) {
      assert g.ClassOf(id) == ConfirmedDuplicate;
    }
  }

  ghost predicate OnlyEdge(g: Graph<ConnId>, c: ConnId, l: ConnId) {
    && (c, l) in g.edges && (forall x :: (c, x) in g.edges ==> x == l) && (forall x :: (x, l) in g.edges ==> x == c)
  }

  ghost predicate OnlyRelay(e: Engine, conns: seq<Snapshot>, c: Snapshot, l: Snapshot) {
    && l in conns && RelaysInFrame(e, c, l)
    && (forall x :: x in conns && RelaysInFrame(e, c, x) ==> x == l)
    && (forall x :: x in conns && RelaysInFrame(e, x, l) ==> x == c)
  }

  lemma SameSnapshot(conns: seq<Snapshot>, a: Snapshot, b: Snapshot)
    requires DistinctIds(conns) && a in conns && b in conns && a.id == b.id
    ensures a == b
  {
    var i, j :| 0 <= i < |conns| && 0 <= j < |conns| && conns[i] == a && conns[j] == b;
    if i != j {
      assert conns[i].id == conns[j].id;
    }
  }

  ghost predicate EdgesSay(e: Engine, conns: seq<Snapshot>, g: Graph<ConnId>) {
    && (forall a, b :: a in conns && b in conns ==> ((a.id, b.id) in g.edges <==> RelaysInFrame(e, a, b)))
    && (forall p :: p in g.edges ==> (exists a :: a in conns && a.id == p.0) && exists b :: b in conns && b.id == p.1)
  }

  lemma OnlyEdgeIsRelay(e: Engine, conns: seq<Snapshot>, g: Graph<ConnId>, c: Snapshot, l: Snapshot)
    requires DistinctIds(conns) && c in conns && l in conns && EdgesSay(e, conns, g)
    ensures OnlyEdge(g, c.id, l.id) <==> OnlyRelay(e, conns, c, l)
  {
    hide RelaysInFrame, DistinctIds;
    if OnlyEdge(g, c.id, l.id) {
      forall x | x in conns && RelaysInFrame(e, c, x) ensures x == l {
        SameSnapshot(conns, x, l);
      }
      forall x | x in conns && RelaysInFrame(e, x, l) ensures x == c {
        SameSnapshot(conns, x, c);
      }
    }
    if OnlyRelay(e, conns, c, l) {
      forall x | (c.id, x) in g.edges ensures x == l.id {
        var p := (c.id, x);
        var y :| y in conns && y.id == p.1;
        assert RelaysInFrame(e, c, y);
      }
      forall x | (x, l.id) in g.edges ensures x == c.id {
        var p := (x, l.id);
        var y :| y in conns && y.id == p.0;
        assert RelaysInFrame(e, y, l);
      }
    }
  }

  /** The same choice, said of identifiers and of snapshots. */
  lemma EdgesAreRelays(e: Engine, conns: seq<Snapshot>, g: Graph<ConnId>, c: Snapshot)
    requires DistinctIds(conns) && c in conns && EdgesSay(e, conns, g)
    ensures (exists l: ConnId :: OnlyEdge(g, c.id, l)) <==> exists l :: OnlyRelay(e, conns, c, l)
  {
    hide DistinctIds, OnlyRelay, RelaysInFrame;
    if l: ConnId :| OnlyEdge(g, c.id, l) {
      var p := (c.id, l);
      var b :| b in conns && b.id == p.1;
      OnlyEdgeIsRelay(e, conns, g, c, b);
    }
    if b :| OnlyRelay(e, conns, c, b) {
      assert b in conns by { RelayIsThere(e, conns, c, b); }
      OnlyEdgeIsRelay(e, conns, g, c, b);
    }
  }

  lemma RelayIsThere(e: Engine, conns: seq<Snapshot>, c: Snapshot, l: Snapshot)
    requires OnlyRelay(e, conns, c, l)
    ensures l in conns
  {
  }

  // ---------------------------------------------------------------------------------------------
  // Confirmed duplicates
  // ---------------------------------------------------------------------------------------------

  /** In a steady frame, a live connection that the frame confirms and that did not regress ends the frame as a
      confirmed duplicate, which is said once unless it was one before, and its traffic counts for nothing. */
  lemma ConfirmedEndsAsDuplicate(e: Engine, f: Frame, c: Snapshot)
    requires EngineOk(e) && SaneItem(FrameItem(f)) && SteadyFrame(e, f)
    requires c in f.conns && c.id in e.active && c.id in ConfirmedIn(e, f.conns)
    requires c.counters.up >= e.active[c.id].counters.up && c.counters.down >= e.active[c.id].counters.down
    ensures var e' := ProcessFrame(e, f);
            && e.log <= e'.log && c.id in e'.active && e'.active[c.id].attr == ConfirmedRelayDuplicate
            && var own := Own(Said(e, e'), c.id);
               && |OfKind(own, RelayClassificationChanged)|
                  == (if e.active[c.id].attr == ConfirmedRelayDuplicate then 0 else 1)
               && Contributions(own) == NO_BYTES
  {
    hide Inner, ProcessFrame, Contributions, Own, OfKind, ConfirmedIn, MetadataFollowed, GainSaid, ResidualSays,
         GoneSays;
    FrameSays(e, f);
  }

  /** A connection the frame meets for the first time, or again, is classed at once, without a change of class. */
  lemma ConfirmedStartsAsDuplicate(e: Engine, f: Frame, c: Snapshot)
    requires EngineOk(e) && SaneItem(FrameItem(f)) && SteadyFrame(e, f)
    requires c in f.conns && c.id !in e.active && c.id in ConfirmedIn(e, f.conns)
    ensures var e' := ProcessFrame(e, f);
            && e.log <= e'.log && c.id in e'.active && e'.active[c.id].attr == ConfirmedRelayDuplicate
            && Contributions(Own(Said(e, e'), c.id)) == NO_BYTES
  {
    hide Inner, ProcessFrame, Contributions, Own, OfKind, ConfirmedIn, ResidualSays, GoneSays;
    FrameSays(e, f);
  }

  lemma {:induction false} OwnMember(ds: seq<Draft>, d: Draft)
    requires d in ds && d.conn.Some?
    ensures d in Own(ds, d.conn.value)
  {
    if d != ds[|ds| - 1] {
      OwnMember(ds[..|ds| - 1], d);
    }
  }

  lemma {:induction false} KindMember(ds: seq<Draft>, d: Draft)
    requires d in ds
    ensures d in OfKind(ds, d.typ)
  {
    if d != ds[|ds| - 1] {
      KindMember(ds[..|ds| - 1], d);
    }
  }

  /** And no connection is reclassified without being confirmed by the frame. */
  lemma OnlyConfirmedAreReclassified(e: Engine, f: Frame, d: Draft)
    requires EngineOk(e) && SaneItem(FrameItem(f)) && SteadyFrame(e, f)
    requires e.log <= ProcessFrame(e, f).log && d in Said(e, ProcessFrame(e, f))
    requires d.typ.RelayClassificationChanged?
    ensures d.conn.Some? && d.conn.value in ConfirmedIn(e, f.conns) && d.conn.value in e.active
  {
    hide Inner, ProcessFrame, Contributions, Own, OfKind, ConfirmedIn, MetadataFollowed, GainSaid, ResidualSays, Said;
    FrameSays(e, f);
    var e' := ProcessFrame(e, f);
    var own := Own(Said(e, e'), d.conn.value);
    OwnMember(Said(e, e'), d);
    KindMember(own, d);
    if d.conn.value in IdsOf(f.conns) {
      var c :| c in f.conns && c.id == d.conn.value;
    }
  }

  /** The residual of a steady frame is the controller's growth less the growth of every connection that is not
      a confirmed duplicate at the end of the frame and whose counters did not go back. */
  lemma ResidualIsTheRest(e: Engine, f: Frame)
    requires EngineOk(e) && SaneItem(FrameItem(f)) && SteadyFrame(e, f)
    ensures var e' := ProcessFrame(e, f);
            && e.log < e'.log && (forall c :: c in f.conns ==> c.id in e'.active)
            && var global, unique := Minus(f.total, e.total), CountedSum(e, f.conns, e'.active);
               e'.log[|e'.log| - 1].body.typ == SamplingResidual
               && e'.log[|e'.log| - 1].body.details
                   == Residual(FrameType.SteadyFrame, global, unique, Minus(global, unique))
  {
    hide Inner, ProcessFrame, ConfirmedIn, SteadyConnSays, GoneSays, CountedSum, Own;
    FrameSays(e, f);
  }

  // ---------------------------------------------------------------------------------------------
  // The frame in the journal
  // ---------------------------------------------------------------------------------------------

  predicate EndsInPlace(e: Engine) {
    e.log != [] && e.log[|e.log| - 1].pos.session == e.session && e.log[|e.log| - 1].pos.epoch == e.epoch
  }

  lemma EmitEndsInPlace(e: Engine, d: Draft)
    ensures EndsInPlace(Emit(e, [d]))
  {
  }

  lemma FrameEndsInPlace(e: Engine, f: Frame)
    ensures EndsInPlace(BootFrame(e, f)) && EndsInPlace(RecoverFrame(e, f)) && EndsInPlace(ObserveFrame(e, f))
  {
    hide ConnSteps, CloseMissing, UniqueObserved, ConfirmedIn, UnobservedGap, Emit;
    forall x: Engine, d ensures EndsInPlace(Emit(x, [d])) {
      EmitEndsInPlace(x, d);
    }
  }

  lemma LastIsInPlace(e: Engine, f: Frame)
    ensures EndsInPlace(ProcessFrame(e, f))
  {
    hide BootFrame, RecoverFrame, ObserveFrame, EndsInPlace, Plain;
    forall x
      ensures EndsInPlace(BootFrame(x, f)) && EndsInPlace(RecoverFrame(x, f)) && EndsInPlace(ObserveFrame(x, f))
    {
      FrameEndsInPlace(x, f);
    }
  }

  /** The authoritative time of a group is that of the engine's latest frame, even of an empty one. */
  lemma FrameTimeIsLatest(e: Engine, f: Frame)
    requires EngineOk(e) && SaneItem(FrameItem(f))
    ensures var e' := ProcessFrame(e, f); Evidence.FrameTime(e'.log, e'.session, e'.epoch) == f.at
  {
    hide Inner, ProcessFrame, ConfirmedIn, SteadyConnSays, RecoveredConnSays, GoneSays, CountedSum, Own, BaselineSays,
         UnreachableSays, GapEndSays;
    FrameSays(e, f);
    LastIsInPlace(e, f);
  }

  // ---------------------------------------------------------------------------------------------
  // The memory of connections that are gone
  // ---------------------------------------------------------------------------------------------

  /** After `ids` disappeared in this order, each is remembered with its last state and every earlier memory kept,
      as far as the capacity of 4096 reaches. */
  ghost predicate Remembers(e: Engine, ids: seq<ConnId>, at: Time, g: Graveyard<Tomb>, g': Graveyard<Tomb>)
    requires forall id :: id in ids ==> id in e.active
  {
    && g'.Valid() && g'.next == g.next + |ids|
    && (forall i :: 0 <= i < |ids| && ids[i] in g'.stones ==>
          g'.stones[ids[i]] == Stone(Tomb(e.active[ids[i]], at), g.next + i))
    && (forall i :: 0 <= i < |ids| && |ids| - i <= 4096 ==> ids[i] in g'.stones)
    && (forall x :: x in g'.stones && x !in ids ==> x in g.stones && g'.stones[x] == g.stones[x])
    && (forall x :: x in g.stones && x !in ids && g.next + |ids| - g.stones[x].serial <= 4096 ==> x in g'.stones)
  }

  lemma {:induction false} CloseAllRemembers(e: Engine, ids: seq<ConnId>, at: Time)
    requires e.tombs.Valid() && Distinct(ids) && forall id :: id in ids ==> id in e.active
    ensures Remembers(e, ids, at, e.tombs, CloseAll(e, ids, at).tombs)
  {
    hide Emit, Bury, Graveyard<Tomb>.Valid;
    if ids != [] {
      var front, id := ids[..|ids| - 1], ids[|ids| - 1];
      assert ids == front + [id] && id !in front;
      CloseAllRemembers(e, front, at);
      SparseEvidence.CloseAllRemoves(e, front, at);
      var s := CloseAll(e, front, at);
      BuryEffect(s.tombs, id, Tomb(s.active[id], at));
      CloseOneBuries(s, id, at);
      RememberOneMore(e, front, id, at, e.tombs, s.tombs, CloseOne(s, id, at).tombs);
    }
  }

  lemma CloseOneBuries(e: Engine, id: ConnId, at: Time)
    requires id in e.active
    ensures CloseOne(e, id, at).tombs == Bury(e.tombs, id, Tomb(e.active[id], at))
  {
    hide Bury;
  }

  lemma RememberOneMore(e: Engine, front: seq<ConnId>, id: ConnId, at: Time, g: Graveyard<Tomb>, g1: Graveyard<Tomb>,
                        g2: Graveyard<Tomb>)
    requires (forall x :: x in front ==> x in e.active) && id in e.active && id !in front && Distinct(front)
    requires Remembers(e, front, at, g, g1) && g2.Valid() && g2.next == g1.next + 1
    requires id in g2.stones && g2.stones[id] == Stone(Tomb(e.active[id], at), g1.next)
    requires forall x :: x != id ==> (x in g2.stones <==> x in g1.stones && g1.next - g1.stones[x].serial < 4096)
    requires forall x :: x != id && x in g2.stones ==> g2.stones[x] == g1.stones[x]
    ensures Remembers(e, front + [id], at, g, g2)
  {
    hide Graveyard<Tomb>.Valid;
  }

  lemma {:induction false} ConnStepsTake(e: Engine, conns: seq<Snapshot>, at: Time, mode: Mode)
    requires DistinctIds(conns)
    ensures var g := ConnSteps(e, conns, at, mode).tombs;
            && g.next == e.tombs.next && g.fifo == e.tombs.fifo
            && (forall x :: x in g.stones <==> x in e.tombs.stones
                                               && !(mode.Steady? && x !in e.active && x in IdsOf(conns)))
            && (forall x :: x in g.stones ==> g.stones[x] == e.tombs.stones[x])
  {
    hide Decide, Emit;
    if conns != [] {
      var front, c := conns[..|conns| - 1], conns[|conns| - 1];
      assert conns == front + [c] && IdsOf(conns) == IdsOf(front) + {c.id};
      ConnStepsTake(e, front, at, mode);
      OthersLeaveAlone(e, front, at, mode, c);
      StepTouchesOne(ConnSteps(e, front, at, mode), c, at, mode);
    }
  }

  /** What a frame that keeps its counter epoch makes of the memory: connections that return are forgotten,
      connections that are gone are remembered as they were last seen, and the rest is kept, unless the
      capacity of 4096 is exceeded. */
  ghost predicate MemoryLaws(e: Engine, f: Frame, forget: bool, e': Engine) {
    var gone := e.active.Keys - IdsOf(f.conns);
    && RemembersThem(e.active, gone, f.at, e'.tombs)
    && KeepsTheRest(e.tombs, gone, if forget then IdsOf(f.conns) - e.active.Keys else {}, e'.tombs)
  }

  ghost predicate RemembersThem(active: map<ConnId, Active>, gone: set<ConnId>, at: Time, g': Graveyard<Tomb>) {
    && gone <= active.Keys
    && (forall x :: x in gone && x in g'.stones ==> g'.stones[x].value == Tomb(active[x], at))
    && (|gone| <= 4096 ==> forall x :: x in gone ==> x in g'.stones)
  }

  ghost predicate KeepsTheRest(g: Graveyard<Tomb>, gone: set<ConnId>, back: set<ConnId>, g': Graveyard<Tomb>) {
    && (forall x :: x in g'.stones && x !in gone ==> x in g.stones && x !in back && g'.stones[x] == g.stones[x])
    && (forall x :: x in g.stones && x !in gone && x !in back ==>
          x in g'.stones || g.next + |gone| - g.stones[x].serial > 4096)
  }

  lemma {:induction false} AscendingLength(s: set<ConnId>)
    ensures |Ascending(s)| == |s|
    decreases s
  {
    if s != {} {
      MinExists(s);
      var m :| IsLeast(s, m) && Ascending(s) == [m] + Ascending(s - {m});
      AscendingLength(s - {m});
    }
  }

  lemma LoopsRemember(e: Engine, f: Frame, mode: Mode, e': Engine)
    requires e.tombs.Valid() && Inner(e) && SaneItem(FrameItem(f))
    requires e'.tombs == CloseMissing(ConnSteps(e, f.conns, f.at, mode), f.conns, f.at).tombs
    ensures MemoryLaws(e, f, mode.Steady?, e')
  {
    hide Inner, Ascending, CloseAll, ConnSteps, SaneSnapshot, Graveyard<Tomb>.Valid, Remembers, RemembersThem,
         KeepsTheRest;
    var s := ConnSteps(e, f.conns, f.at, mode);
    ConnStepsTake(e, f.conns, f.at, mode);
    TakingKeepsValid(e.tombs, s.tombs);
    var gone := e.active.Keys - IdsOf(f.conns);
    GoneFromLoop(e, f, mode);
    AscendingIsDistinct(gone);
    AscendingLength(gone);
    SparseEvidence.AscendingMembers(gone);
    CloseAllRemembers(s, Ascending(gone), f.at);
    TheyAreRemembered(s, e.active, gone, Ascending(gone), f.at, e'.tombs);
    RestIsKept(e.tombs, s, gone, if mode.Steady? then IdsOf(f.conns) - e.active.Keys else {}, Ascending(gone), f.at,
               e'.tombs);
  }

  /** Who is missing after the loop was missing before it, as it was. */
  lemma GoneFromLoop(e: Engine, f: Frame, mode: Mode)
    requires Inner(e) && SaneItem(FrameItem(f))
    ensures var s, gone := ConnSteps(e, f.conns, f.at, mode), e.active.Keys - IdsOf(f.conns);
            && s.active.Keys - IdsOf(f.conns) == gone
            && forall x :: x in gone ==> x in s.active && s.active[x] == e.active[x]
  {
    hide Inner, ConnSteps, SaneSnapshot, Decide, Own;
    SparseEvidence.ConnStepsAreFresh(e, f.conns, f.at, mode);
    ConnStepsSay(e, f.conns, f.at, mode);
  }

  lemma TakingKeepsValid(g: Graveyard<Tomb>, g': Graveyard<Tomb>)
    requires g.Valid() && g'.next == g.next && g'.fifo == g.fifo
    requires forall x :: x in g'.stones ==> x in g.stones && g'.stones[x] == g.stones[x]
    ensures g'.Valid()
  {
  }

  lemma TheyAreRemembered(s: Engine, active: map<ConnId, Active>, gone: set<ConnId>, ids: seq<ConnId>, at: Time,
                          g': Graveyard<Tomb>)
    requires (forall x :: x in ids <==> x in gone) && |ids| == |gone| && gone <= active.Keys
    requires forall x :: x in gone ==> x in s.active && s.active[x] == active[x]
    requires Remembers(s, ids, at, s.tombs, g')
    ensures RemembersThem(active, gone, at, g')
  {
    hide Graveyard<Tomb>.Valid;
    forall x | x in gone
      ensures |gone| <= 4096 ==> x in g'.stones
      ensures x in g'.stones ==> g'.stones[x].value == Tomb(active[x], at)
    {
      assert x in ids;
      var i :| 0 <= i < |ids| && ids[i] == x;
      assert |gone| <= 4096 ==> |ids| - i <= 4096;
    }
  }

  lemma RestIsKept(g: Graveyard<Tomb>, s: Engine, gone: set<ConnId>, back: set<ConnId>, ids: seq<ConnId>, at: Time,
                   g': Graveyard<Tomb>)
    requires (forall x :: x in ids <==> x in gone) && |ids| == |gone| && forall x :: x in ids ==> x in s.active
    requires s.tombs.next == g.next && forall x :: x in s.tombs.stones <==> x in g.stones && x !in back
    requires forall x :: x in s.tombs.stones ==> s.tombs.stones[x] == g.stones[x]
    requires Remembers(s, ids, at, s.tombs, g')
    ensures KeepsTheRest(g, gone, back, g')
  {
    hide Graveyard<Tomb>.Valid;
  }

  /** The memory after every frame: kept by the laws above within a counter epoch, empty after a baseline frame. */
  lemma FrameRemembers(e: Engine, f: Frame)
    requires EngineOk(e) && SaneItem(FrameItem(f))
    ensures var e' := ProcessFrame(e, f);
            if e.bootstrap || TotalFell(e, f) then e'.tombs.stones == map[]
            else MemoryLaws(e, f, !e.gapOpen, e')
  {
    hide Inner, BootFrame, ConnSteps, CloseMissing, UniqueObserved, ConfirmedIn, Plain, MemoryLaws, Contributions,
         Contribution, GapAfter, Bodies, SaneSnapshot, Clear;
    var b := BeginFrame(e);
    InnerIgnoresFlags(e, b);
    forall x: Engine ensures BootFrame(x, f).tombs.stones == map[] {
      BootForgets(x, f);
    }
    if e.bootstrap || TotalFell(e, f) {
      assert e.gapOpen ==> TotalsRegress(e, f);
    } else if e.gapOpen {
      var g := GapClosedDraft(b.gapStart, f.at, GapDelta(Since(f, b.total)));
      GapDraftsAreGlobal(b.gapStart, f.at);
      GlobalKeepsInner(b, g);
      ValidInside(Emit(b, [g]));
      LoopsRemember(Emit(b, [g]), f, Recovering(b.gapStart), ProcessFrame(e, f));
      MemoryIgnoresFlags(Emit(b, [g]), e, f, false, ProcessFrame(e, f));
    } else {
      ValidInside(b);
      LoopsRemember(b, f, Steady(ConfirmedIn(b, f.conns)), ProcessFrame(e, f));
      MemoryIgnoresFlags(b, e, f, true, ProcessFrame(e, f));
    }
  }

  lemma ValidInside(e: Engine)
    requires Inner(e)
    ensures e.tombs.Valid()
  {
  }

  lemma MemoryIgnoresFlags(a: Engine, b: Engine, f: Frame, forget: bool, e': Engine)
    requires a.active == b.active && a.tombs == b.tombs && MemoryLaws(a, f, forget, e')
    ensures MemoryLaws(b, f, forget, e')
  {
  }

  lemma BootForgets(e: Engine, f: Frame)
    ensures BootFrame(e, f).tombs.stones == map[]
  {
    hide ConnSteps;
    var e0 := e.(active := map[], tombs := Clear(e.tombs));
    BootingTakesNothing(e0, f.conns, f.at);
  }

  lemma {:induction false} BootingTakesNothing(e: Engine, conns: seq<Snapshot>, at: Time)
    ensures ConnSteps(e, conns, at, Booting).tombs == e.tombs
  {
    hide Decide;
    if conns != [] {
      BootingTakesNothing(e, conns[..|conns| - 1], at);
      StepTouchesOne(ConnSteps(e, conns[..|conns| - 1], at, Booting), conns[|conns| - 1], at, Booting);
    }
  }

  // ---------------------------------------------------------------------------------------------
  // The other items
  // ---------------------------------------------------------------------------------------------

  /** A disconnect opens one gap, which reaches back to the latest frame; while one is open, or before the first
      frame, it says nothing. A health report is passed on. A shutdown before the first contact says how long
      the controller was out of reach. None of them touches a connection. */
  lemma ItemSays(e: Engine, item: Item)
    requires !item.FrameItem?
    ensures var e' := Process(e, item);
            && e.log <= e'.log && e'.active == e.active && e'.tombs == e.tombs && e'.total == e.total
            && match item
               case GapItem(at, reason) =>
                 if e.healthy && !e.gapOpen then
                   var start := if e.lastHealthy == ZERO_TIME then at else e.lastHealthy;
                   && |Said(e, e')| == 1 && GapStartSays(Said(e, e')[0], start, at, reason)
                   && e'.gapOpen && e'.gapStart == start
                 else e' == e
               case HealthItem(at, issue) =>
                 && |Said(e, e')| == 1 && Said(e, e')[0].typ.CollectorHealth? && Said(e, e')[0].at == at
                 && Said(e, e')[0].details == HealthIssue(ReportedIssue(issue)) && Said(e, e')[0].conn == None
               case ShutdownItem(at) =>
                 if !e.healthy && WasUnreachable(e, at) then
                   |Said(e, e')| == 2 && UnreachableSays(Said(e, e'), 0, e.created, at) && e'.unobserved
                 else e' == e
               case FrameItem(_) => true
  {
    match item
    case GapItem(at, reason) =>
      var start := if e.lastHealthy == ZERO_TIME then at else e.lastHealthy;
      EmitAdds(e.(gapOpen := true, gapStart := start), [GapOpenedDraft(start, at, reason)]);
    case HealthItem(at, issue) =>
      EmitAdds(e, [Plain(CollectorHealth, at).(details := HealthIssue(ReportedIssue(issue)))]);
    case ShutdownItem(at) =>
      EmitAdds(e, [GapOpenedDraft(e.created, at, UNREACHABLE), GapClosedDraft(e.created, at, GapReason(UNREACHABLE))]);
    case FrameItem(_) =>
      assert false;
  }
}
