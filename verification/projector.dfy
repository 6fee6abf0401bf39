/** Projection of journal events onto the dimension and time-series tables (projector.go). Every table
    is keyed by its session column, so a session's rows form a unit; created/updated stamps are left out. */
module Projector {
  import opened Types

  datatype RowState = RowActive | RowDisappeared

  datatype EndReason = DisappearedFromSnapshot | EpochBoundary | SessionClosed | SessionInterrupted

  datatype Ending = Ending(at: Time, reason: EndReason, event: Option<EventId>)

  datatype Row = Row(start: string, firstAt: Time, lastAt: Time, state: RowState, disappearedAt: Option<Time>,
                     tail: bool, preexisting: bool, meta: Meta, route: Route, attr: Attr, baseline: Bytes,
                     observed: Bytes, monitored: Bytes, ended: Option<Ending>)

  datatype TrafficRow = TrafficRow(id: EventId, at: Time, interval: Option<Interval>, precision: Precision,
                                   delta: Bytes, observed: Bytes, monitored: Bytes)

  datatype ResidualRow = ResidualRow(id: EventId, at: Time, global: Bytes, unique: Bytes, residual: Bytes)

  datatype HealthRow = HealthRow(id: EventId, at: Time, conn: Option<ConnId>, details: Details)

  datatype GapRow = GapRow(opening: EventId, start: Time, reason: string, closing: Option<EventId>,
                           endedAt: Option<Time>, global: Option<Bytes>, unavailable: bool)

  type RowKey = (nat, Option<ConnId>)

  datatype Tables = Tables(rows: map<RowKey, Row>, traffic: seq<TrafficRow>, residuals: seq<ResidualRow>,
                           health: seq<HealthRow>, gaps: seq<GapRow>)

  const EMPTY_TABLES := Tables(map[], [], [], [], [])

  datatype ProjectionError = ContractViolation

  function KeyFor(ev: Event): RowKey {
    (ev.pos.epoch, ev.body.conn)
  }

  // ---------------------------------------------------------------------------------------------
  // Connection rows
  // ---------------------------------------------------------------------------------------------

  function FreshRow(d: Draft, monitored: Bytes): Row {
    Row(d.start, d.at, d.at, RowActive, None, false, d.preexisting, d.meta, d.route, d.attr, d.baseline, d.observed,
        monitored, None)
  }

  /** A bootstrap of a known row only refreshes its last sighting; it does not reopen it. */
  function BootstrapRow(rows: map<RowKey, Row>, k: RowKey, d: Draft): Row {
    if k in rows then rows[k].(lastAt := d.at) else FreshRow(d, NO_BYTES)
  }

  /** A New of a known row reopens it; the first observation and the preexisting mark stay. */
  function NewRow(rows: map<RowKey, Row>, k: RowKey, d: Draft): Row {
    var row := FreshRow(d, d.monitored).(preexisting := false);
    if k in rows then row.(firstAt := rows[k].firstAt, preexisting := rows[k].preexisting) else row
  }

  function TrafficOf(ev: Event): TrafficRow {
    TrafficRow(ev.Id(), ev.body.at, ev.body.interval, ev.body.precision, ev.body.delta, ev.body.observed,
               ev.body.monitored)
  }

  function AfterDelta(r: Row, d: Draft): Row {
    r.(lastAt := d.at, observed := d.observed, monitored := d.monitored)
  }

  function AfterPresence(r: Row, d: Draft): Row {
    r.(lastAt := d.at, observed := d.observed)
  }

  function AfterMetadata(r: Row, d: Draft): Row {
    r.(meta := d.meta, route := d.route)
  }

  function AfterClass(r: Row, d: Draft): Row {
    r.(attr := d.attr)
  }

  function AfterDisappeared(r: Row, ev: Event): Row {
    var d := ev.body;
    var seen := if d.details.LastSeen? then r.(lastAt := d.details.at, observed := d.details.counters) else r;
    seen.(state := RowDisappeared, disappearedAt := Some(d.at), tail := true,
          ended := Some(Ending(d.at, DisappearedFromSnapshot, Some(ev.Id()))))
  }

  function Ended(r: Row, ending: Ending): Row {
    if r.ended.None? then r.(ended := Some(ending)) else r
  }

  /** Close every open observation of an epoch. */
  function CloseEpoch(rows: map<RowKey, Row>, epoch: nat, ending: Ending): map<RowKey, Row> {
    map k | k in rows :: if k.0 == epoch then Ended(rows[k], ending) else rows[k]
  }

  /** Close every open observation of the session. */
  function CloseRows(t: Tables, ending: Ending): Tables {
    t.(rows := map k | k in t.rows :: Ended(t.rows[k], ending))
  }

  // ---------------------------------------------------------------------------------------------
  // Gaps
  // ---------------------------------------------------------------------------------------------

  predicate IsOpenGap(g: GapRow) {
    g.endedAt.None?
  }

  /** The open gap that started last, if there is one. */
  function LatestOpen(gaps: seq<GapRow>): Option<nat>
    ensures LatestOpen(gaps).Some? <==> exists g :: g in gaps && IsOpenGap(g)
    ensures LatestOpen(gaps).Some? ==> LatestOpen(gaps).value < |gaps| && IsOpenGap(gaps[LatestOpen(gaps).value])
  {
    if gaps == [] then None
    else
      var front, last := gaps[..|gaps| - 1], gaps[|gaps| - 1];
      assert gaps == front + [last];
      var best := LatestOpen(front);
      if IsOpenGap(last) && (best.None? || front[best.value].start <= last.start) then Some(|gaps| - 1) else best
  }

  function GapStart(d: Draft): Time {
    if d.interval.Some? then d.interval.value.start else d.at
  }

  function OpenedGap(ev: Event): GapRow {
    GapRow(ev.Id(), GapStart(ev.body),
           if ev.body.details.GapReason? then ev.body.details.reason else "controller_disconnected_or_watchdog_stalled",
           None, None, None, false)
  }

  function ClosedGap(g: GapRow, ev: Event): GapRow {
    g.(closing := Some(ev.Id()), endedAt := Some(ev.body.at),
       global := if ev.body.details.GapDelta? then Some(ev.body.details.global) else None,
       unavailable := ev.body.details.GapDeltaUnavailable?)
  }

  // ---------------------------------------------------------------------------------------------
  // One event
  // ---------------------------------------------------------------------------------------------

  function ResidualOf(ev: Event): ResidualRow {
    var d := ev.body;
    if d.details.Residual? then ResidualRow(ev.Id(), d.at, d.details.global, d.details.unique, d.details.residual)
    else ResidualRow(ev.Id(), d.at, NO_BYTES, NO_BYTES, NO_BYTES)
  }

  function WithRow(t: Tables, k: RowKey, r: Row): Tables {
    t.(rows := t.rows[k := r])
  }

  /** ApplyEventProjection: an update that does not hit exactly one row violates the contract. */
  function Project(t: Tables, ev: Event): Result<Tables, ProjectionError> {
    var k, d := KeyFor(ev), ev.body;
    match d.typ
    case ConnectionBootstrap => Ok(WithRow(t, k, BootstrapRow(t.rows, k, d)))
    case ConnectionNew => Ok(WithRow(t, k, NewRow(t.rows, k, d)).(traffic := t.traffic + [TrafficOf(ev)]))
    case ConnectionDelta =>
      if k !in t.rows then Err(ContractViolation)
      else Ok(WithRow(t, k, AfterDelta(t.rows[k], d)).(traffic := t.traffic + [TrafficOf(ev)]))
    case PresenceCheckpoint => if k !in t.rows then Err(ContractViolation)
        else Ok(WithRow(t, k, AfterPresence(t.rows[k], d)))
    case MetadataUpdated => if k !in t.rows then Err(ContractViolation)
        else Ok(WithRow(t, k, AfterMetadata(t.rows[k], d)))
    case RelayClassificationChanged => if k !in t.rows then Err(ContractViolation)
        else Ok(WithRow(t, k, AfterClass(t.rows[k], d)))
    case ConnectionDisappeared => if k !in t.rows then Err(ContractViolation)
        else Ok(WithRow(t, k, AfterDisappeared(t.rows[k], ev)))
    case CounterEpochBreak => Ok(t.(rows := CloseEpoch(t.rows, ev.pos.epoch,
                                                       Ending(d.at, EpochBoundary, Some(ev.Id())))))
    case MonitoringGapOpened => Ok(t.(gaps := t.gaps + [OpenedGap(ev)]))
    case MonitoringGapClosed =>
      var open := LatestOpen(t.gaps);
      if open.None? then Err(ContractViolation)
      else Ok(t.(gaps := t.gaps[open.value := ClosedGap(t.gaps[open.value], ev)]))
    case SamplingResidual => Ok(t.(residuals := t.residuals + [ResidualOf(ev)]))
    case CollectorHealth => Ok(t.(health := t.health + [HealthRow(ev.Id(), d.at, d.conn, d.details)]))
  }

  /** Project a list of events of one session, stopping at the first violation. */
  function ProjectAll(evs: seq<Event>): Result<Tables, ProjectionError> {
    if evs == [] then Ok(EMPTY_TABLES)
    else match ProjectAll(evs[..|evs| - 1])
         case Ok(t) => Project(t, evs[|evs| - 1])
         case Err(e) => Err(e)
  }

  lemma {:induction false} PrefixProjects(evs: seq<Event>, n: nat)
    requires ProjectAll(evs).Ok? && n <= |evs|
    ensures ProjectAll(evs[..n]).Ok?
  {
    if n < |evs| {
      PrefixProjects(evs[..|evs| - 1], n);
      assert evs[..|evs| - 1][..n] == evs[..n];
    } else {
      assert evs[..n] == evs;
    }
  }
}
