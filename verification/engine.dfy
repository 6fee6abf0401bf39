/** The collector state machine as a function of the ingested items (engine.go): the specification the
    class in enginestate.dfy implements, and its invariant over every run. */
module Engine {
  import opened Types
  import opened Attribution
  import opened Decisions
  import opened Tombstones

  const UNREACHABLE_GAP_MIN := 2 * SECOND

  /** The engine between two items, with everything it has sent to the sink. */
  datatype Engine = Engine(session: SessionId, epoch: nat, frame: nat, seqno: nat, active: map<ConnId, Active>,
                           tombs: Graveyard<Tomb>, total: Bytes, healthy: bool, gapOpen: bool, gapStart: Time,
                           lastHealthy: Time, bootstrap: bool, created: Time, unobserved: bool, log: seq<Event>)

  datatype Item =
    | FrameItem(frame: Frame)
    | GapItem(at: Time, reason: string)
    | HealthItem(at: Time, issue: string)
    | ShutdownItem(at: Time)

  function NewEngine(session: SessionId, created: Time): Engine {
    Engine(session, 1, 0, 0, map[], EmptyGraveyard(), NO_BYTES, false, false, ZERO_TIME, ZERO_TIME, true, created,
           false, [])
  }

  function Stamped(ds: seq<Draft>, session: SessionId, epoch: nat, frame: nat, seqno: nat): seq<Event> {
    seq(|ds|, i requires 0 <= i < |ds| => Event(Pos(session, epoch, frame, seqno + 1 + i), ds[i]))
  }

  function Bodies(log: seq<Event>): seq<Draft> {
    seq(|log|, i requires 0 <= i < |log| => log[i].body)
  }

  /** emitEvent, for a list of events in order. */
  function Emit(e: Engine, ds: seq<Draft>): Engine {
    e.(seqno := e.seqno + |ds|, log := e.log + Stamped(ds, e.session, e.epoch, e.frame, e.seqno))
  }

  // ---------------------------------------------------------------------------------------------
  // The connections of a frame
  // ---------------------------------------------------------------------------------------------

  datatype Mode = Booting | Recovering(gapStart: Time) | Steady(confirmed: set<ConnId>)

  predicate IsReobservation(e: Engine, c: Snapshot) {
    c.id !in e.active && c.id in e.tombs.stones && e.tombs.stones[c.id].value.state.snap.start == c.start
  }

  function Decide(e: Engine, c: Snapshot, at: Time, mode: Mode): Decision {
    match mode
    case Booting => ObserveBootstrap(c, at)
    case Recovering(gapStart) =>
      if c.id in e.active then ObserveAcrossGap(e.active[c.id], c, at, gapStart) else ObserveAfterGap(c, at)
    case Steady(confirmed) =>
      if c.id in e.active then ObserveSteady(e.active[c.id], c, at, c.id in confirmed)
      else if IsReobservation(e, c) then Reobserve(e.tombs.stones[c.id].value, c, at, c.id in confirmed)
      else ObserveNew(c, at, c.id in confirmed)
  }

  /** Only a steady frame consumes the tombstone of a connection that is not live. */
  function TombsAfter(e: Engine, c: Snapshot, mode: Mode): Graveyard<Tomb> {
    if mode.Steady? && c.id !in e.active then Take(e.tombs, c.id) else e.tombs
  }

  function ConnStep(e: Engine, c: Snapshot, at: Time, mode: Mode): Engine {
    var d := Decide(e, c, at, mode);
    Emit(e, d.drafts).(active := e.active[c.id := d.state], tombs := TombsAfter(e, c, mode))
  }

  function ConnSteps(e: Engine, conns: seq<Snapshot>, at: Time, mode: Mode): Engine {
    if conns == [] then e else ConnStep(ConnSteps(e, conns[..|conns| - 1], at, mode), conns[|conns| - 1], at, mode)
  }

  /** uniqueObserved: the frame's deltas of connections not confirmed as duplicates. */
  function UniqueObserved(e: Engine, conns: seq<Snapshot>, at: Time, mode: Mode): Bytes {
    if conns == [] then NO_BYTES
    else
      var front := conns[..|conns| - 1];
      var sum, last := UniqueObserved(e, front, at, mode),
          Decide(ConnSteps(e, front, at, mode), conns[|conns| - 1], at, mode).unique;
      Bytes(sum.up + last.up, sum.down + last.down)
  }

  /** The first loop of a steady frame: every connection's counter delta. */
  function FrameDelta(e: Engine, c: Snapshot): Bytes {
    if c.id in e.active then Clamped(CounterDelta(c, e.active[c.id].counters))
    else if IsReobservation(e, c) then Clamped(CounterDelta(c, e.tombs.stones[c.id].value.state.counters))
    else c.counters
  }

  function FrameDeltas(e: Engine, conns: seq<Snapshot>): Deltas {
    if conns == [] then map[]
    else FrameDeltas(e, conns[..|conns| - 1])[conns[|conns| - 1].id := FrameDelta(e, conns[|conns| - 1])]
  }

  // ---------------------------------------------------------------------------------------------
  // Disappearance
  // ---------------------------------------------------------------------------------------------

  function IdsOf(conns: seq<Snapshot>): set<ConnId> {
    set c | c in conns :: c.id
  }

  predicate IsLeast(s: set<ConnId>, m: ConnId) {
    m in s && forall x :: x in s ==> m <= x
  }

  lemma LeastBelow(s: set<ConnId>, k: ConnId)
    requires k in s
    ensures exists m :: IsLeast(s, m)
    decreases k
  {
    if x :| x in s && x < k {
      LeastBelow(s, x);
    } else {
      assert IsLeast(s, k);
    }
  }

  lemma MinExists(s: set<ConnId>)
    requires s != {}
    ensures exists m :: IsLeast(s, m)
  {
    var k :| k in s;
    LeastBelow(s, k);
  }

  /** sort.Strings over the missing IDs. */
  ghost function Ascending(s: set<ConnId>): seq<ConnId>
    decreases s
  {
    if s == {} then []
    else
      MinExists(s);
      var m :| IsLeast(s, m);
      [m] + Ascending(s - {m})
  }

  function CloseOne(e: Engine, id: ConnId, at: Time): Engine {
    if id !in e.active then e
    else Emit(e, [DisappearedDraft(id, e.active[id], at)]).(active := e.active - {id},
                                                            tombs := Bury(e.tombs, id, Tomb(e.active[id], at)))
  }

  function CloseAll(e: Engine, ids: seq<ConnId>, at: Time): Engine {
    if ids == [] then e else CloseOne(CloseAll(e, ids[..|ids| - 1], at), ids[|ids| - 1], at)
  }

  ghost function CloseMissing(e: Engine, conns: seq<Snapshot>, at: Time): Engine {
    CloseAll(e, Ascending(e.active.Keys - IdsOf(conns)), at)
  }

  // ---------------------------------------------------------------------------------------------
  // Frames
  // ---------------------------------------------------------------------------------------------

  function ResidualDraft(kind: FrameType, global: Bytes, unique: Bytes, residual: Bytes, at: Time): Draft {
    Plain(SamplingResidual, at).(details := Residual(kind, global, unique, residual))
  }

  function GapClosedDraft(start: Time, at: Time, details: Details): Draft {
    Plain(MonitoringGapClosed, at).(interval := Some(Interval(start, at)), details := details)
  }

  function GapOpenedDraft(start: Time, at: Time, reason: string): Draft {
    Plain(MonitoringGapOpened, at).(interval := Some(Interval(start, at)), details := GapReason(reason))
  }

  const UNREACHABLE := "controller_unreachable_since_session_start"

  /** emitUnobservedIntervalGap: at most once, and only for a meaningful interval. */
  function UnobservedGap(e: Engine, start: Time, end: Time): Engine {
    if e.unobserved || start == ZERO_TIME || end <= start || end - start < UNREACHABLE_GAP_MIN then e
    else Emit(e, [GapOpenedDraft(start, end, UNREACHABLE),
                  GapClosedDraft(start, end, GapReason(UNREACHABLE))]).(unobserved := true)
  }

  function BeginFrame(e: Engine): Engine {
    e.(frame := e.frame + 1, seqno := 0)
  }

  function BreakEpoch(e: Engine): Engine {
    e.(epoch := e.epoch + 1, active := map[], tombs := Clear(e.tombs), bootstrap := true)
  }

  function BootFrame(e: Engine, f: Frame): Engine {
    var seen := ConnSteps(e.(active := map[], tombs := Clear(e.tombs)), f.conns, f.at, Booting)
                  .(total := f.total, lastHealthy := f.at);
    var gapped := if seen.healthy then seen else UnobservedGap(seen, seen.created, f.at);
    Emit(gapped.(healthy := true, bootstrap := false),
         [ResidualDraft(BootstrapFrame, NO_BYTES, NO_BYTES, NO_BYTES, f.at)])
  }

  function Since(f: Frame, total: Bytes): Bytes {
    Bytes(f.total.up - total.up, f.total.down - total.down)
  }

  ghost function RecoverFrame(e: Engine, f: Frame): Engine {
    var global := Since(f, e.total);
    var closed := Emit(e, [GapClosedDraft(e.gapStart, f.at, GapDelta(global))]);
    var seen := CloseMissing(ConnSteps(closed, f.conns, f.at, Recovering(e.gapStart)), f.conns, f.at);
    Emit(seen.(total := f.total, lastHealthy := f.at, gapOpen := false),
         [ResidualDraft(RecoveryFrame, global, NO_BYTES, NO_BYTES, f.at)])
  }

  ghost function ConfirmedIn(e: Engine, conns: seq<Snapshot>): set<ConnId> {
    ConfirmedIds(MetasOf(conns), FrameDeltas(e, conns))
  }

  ghost function ObserveFrame(e: Engine, f: Frame): Engine {
    var mode := Steady(ConfirmedIn(e, f.conns));
    var seen := CloseMissing(ConnSteps(e, f.conns, f.at, mode), f.conns, f.at);
    var global, unique := Since(f, e.total), UniqueObserved(e, f.conns, f.at, mode);
    Emit(seen, [ResidualDraft(SteadyFrame, global, unique, Bytes(global.up - unique.up, global.down - unique.down),
                              f.at)])
      .(total := f.total, lastHealthy := f.at)
  }

  predicate TotalsRegress(e: Engine, f: Frame) {
    f.total.up < e.total.up || f.total.down < e.total.down
  }

  ghost function ProcessFrame(e: Engine, f: Frame): Engine {
    var b := BeginFrame(e);
    if e.gapOpen then
      if TotalsRegress(e, f) then
        BootFrame(BreakEpoch(Emit(b,
                                  [GapClosedDraft(e.gapStart, f.at, GapDeltaUnavailable),
                                   Plain(CounterEpochBreak, f.at)]))
                    .(gapOpen := false), f)
      else RecoverFrame(b, f)
    else if !e.bootstrap && TotalsRegress(e, f) then
      BootFrame(BreakEpoch(Emit(b, [Plain(CounterEpochBreak, f.at)])), f)
    else if e.bootstrap then BootFrame(b, f)
    else ObserveFrame(b, f)
  }

  /** A disconnect opens a gap at the last healthy frame, once. */
  function OpenGap(e: Engine, at: Time, reason: string): Engine {
    if !e.healthy || e.gapOpen then e
    else
      var start := if e.lastHealthy == ZERO_TIME then at else e.lastHealthy;
      Emit(e.(gapOpen := true, gapStart := start), [GapOpenedDraft(start, at, reason)])
  }

  ghost function Process(e: Engine, item: Item): Engine {
    match item
    case FrameItem(f) => ProcessFrame(e, f)
    case GapItem(at, reason) => OpenGap(e, at, reason)
    case HealthItem(at, issue) => Emit(e, [Plain(CollectorHealth, at).(details := HealthIssue(ReportedIssue(issue)))])
    case ShutdownItem(at) => if e.healthy then e else UnobservedGap(e, e.created, at)
  }

  /** What the controller guarantees: IDs distinct within a frame and no negative counters. */
  ghost predicate SaneItem(item: Item) {
    item.FrameItem? ==> DistinctIds(item.frame.conns) && forall c :: c in item.frame.conns ==> SaneSnapshot(c)
  }

  ghost function RunFrom(e: Engine, items: seq<Item>): Engine {
    if items == [] then e else Process(RunFrom(e, items[..|items| - 1]), items[|items| - 1])
  }
}
